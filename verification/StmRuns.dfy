/**
  Every interleaving of transactions (src/basilisp/lang/stm.py:163-303).

  A transaction body is any program: what it does next is a function of what
  its earlier operations returned. A run is a list of labels, each naming the
  transaction that moves; nothing else is known about the schedule.
*/
module StmRuns {
  import opened Prelude
  import opened StmLog

  type RefId = nat
  type TxId(==, !new)

  datatype Move = Do(op: Op<RefId>) | Return(result: Value) | Fail

  type Body = seq<Option<Value>> -> Move

  type Validator = (RefId, Value) -> bool

  type Mem = map<RefId, Cell>

  /** One call of `run_transaction`; `start` and `began` count the commits before its first and its current attempt. */
  datatype Txn = Txn(body: Body, limit: Option<nat>, trace: seq<Entry<RefId>>, attempts: nat, start: nat, began: nat)

  datatype Status =
    | Running(txn: Txn)
    | Done(result: Value)
    | Conflicted(attempts: nat, start: nat)
    | Raised

  /** One entry of the history; `who` is the call of `run_transaction` that committed. */
  datatype Commit = Commit(who: TxId, body: Body, trace: seq<Entry<RefId>>, result: Value, changes: map<RefId, Value>)

  datatype State = State(mem: Mem, txns: map<TxId, Status>, history: seq<Commit>)

  datatype Label = Begin(t: TxId, body: Body, limit: Option<nat>) | Step(t: TxId)

  function Init(store: map<RefId, Value>): State {
    State(map r | r in store :: Cell(store[r], 0), map[], [])
  }

  function Seen(trace: seq<Entry<RefId>>): seq<Option<Value>> {
    seq(|trace|, i requires 0 <= i < |trace| => trace[i].seen)
  }

  /** The cell an operation on `r` works from: the one read earlier in the attempt, else the committed one. */
  function CellFor(l: Log<RefId>, r: RefId, mem: Mem): Cell
    requires r in mem
  {
    if SlotOf(l, r).read.Some? then SlotOf(l, r).read.value else mem[r]
  }

  function Performed(txn: Txn, op: Op<RefId>, mem: Mem): Txn
    requires op.ref in mem
  {
    var cell := CellFor(LogOf(txn.trace), op.ref, mem);
    txn.(trace := txn.trace + [Entry(op, cell, ApplyOp(LogOf(txn.trace), op, cell).1)])
  }

  /** What becomes of a transaction whose commit found conflicts. */
  function Retried(txn: Txn, now: nat): Status {
    if txn.limit.Some? && txn.attempts >= txn.limit.value then Conflicted(txn.attempts, txn.start)
    else Running(txn.(trace := [], attempts := txn.attempts + 1, began := now))
  }

  function Committed(s: State, t: TxId, txn: Txn, result: Value, changes: map<RefId, Value>): State {
    State(Published(s.mem, changes), s.txns[t := Done(result)],
          s.history + [Commit(t, txn.body, txn.trace, result, changes)])
  }

  function Moved(s: State, t: TxId, txn: Txn, valid: Validator): State
    requires LogOf(txn.trace).Keys <= s.mem.Keys
  {
    match txn.body(Seen(txn.trace))
    case Fail => s.(txns := s.txns[t := Raised])
    case Do(op) =>
      if op.ref in s.mem then s.(txns := s.txns[t := Running(Performed(txn, op, s.mem))]) else s
    case Return(v) =>
      match Decide(LogOf(txn.trace), s.mem, valid)
      case Conflict(_) => s.(txns := s.txns[t := Retried(txn, |s.history|)])
      case Raise => s.(txns := s.txns[t := Raised])
      case Publish(changes) => Committed(s, t, txn, v, changes)
  }

  function Next(s: State, a: Label, valid: Validator): State {
    match a
    case Begin(t, body, limit) =>
      if t in s.txns || limit == Some(0) then s
      else s.(txns := s.txns[t := Running(Txn(body, limit, [], 1, |s.history|, |s.history|))])
    case Step(t) =>
      if t in s.txns && s.txns[t].Running? && LogOf(s.txns[t].txn.trace).Keys <= s.mem.Keys
      then Moved(s, t, s.txns[t].txn, valid)
      else s
  }

  function Exec(s: State, run: seq<Label>, valid: Validator): State
    decreases |run|
  {
    if run == [] then s
    else Next(Exec(s, run[..|run| - 1], valid), run[|run| - 1], valid)
  }

  // ------------------------------------------------------------------
  // The reference: one transaction at a time on a plain store

  /** The committed memory after the first `n` commits of `h`. */
  function MemAt(init: Mem, h: seq<Commit>, n: nat): Mem
    requires n <= |h|
  {
    if n == 0 then init else Published(MemAt(init, h, n - 1), h[n - 1].changes)
  }

  /** The store after replaying the first `n` commits one after the other with the direct operations. */
  function ReplayHistory(store: map<RefId, Value>, h: seq<Commit>, n: nat): Option<map<RefId, Value>>
    requires n <= |h|
  {
    if n == 0 then Some(store)
    else
      match ReplayHistory(store, h, n - 1)
      case None => None
      case Some(m) => ReplayCommit(m, h[n - 1])
  }

  function ReplayCommit(m: map<RefId, Value>, c: Commit): Option<map<RefId, Value>> {
    match Replay(Start(m), c.trace)
    case None => None
    case Some(p) => Some(Store(p))
  }

  /** A body run alone for at most `steps` operations with the direct operations: the store and its last move. */
  function RunAlone(body: Body, p: Plain<RefId>, seen: seq<Option<Value>>, steps: nat): (Plain<RefId>, Move)
    decreases steps
  {
    match body(seen)
    case Do(op) =>
      if steps == 0 then (p, Do(op))
      else RunAlone(body, DirectOp(p, op).0, seen + [DirectOp(p, op).1], steps - 1)
    case m => (p, m)
  }

  /** How many of the first `n` commits assigned a Ref. */
  function Count(h: seq<Commit>, n: nat, r: RefId): nat
    requires n <= |h|
  {
    if n == 0 then 0 else Count(h, n - 1, r) + if r in h[n - 1].changes then 1 else 0
  }

  // ------------------------------------------------------------------
  // Versions

  lemma {:induction false} MemAtKeys(init: Mem, h: seq<Commit>, n: nat)
    requires n <= |h|
    ensures MemAt(init, h, n).Keys == init.Keys
  {
    if n > 0 {
      MemAtKeys(init, h, n - 1);
    }
  }

  lemma {:induction false} MemAtVersion(init: Mem, h: seq<Commit>, n: nat, r: RefId)
    requires n <= |h| && r in init && init[r].version == 0
    ensures r in MemAt(init, h, n) && MemAt(init, h, n)[r].version == Count(h, n, r)
  {
    if n > 0 {
      MemAtVersion(init, h, n - 1, r);
    }
  }

  lemma {:induction false} MemAtLonger(init: Mem, h: seq<Commit>, c: Commit, n: nat)
    requires n <= |h|
    ensures MemAt(init, h + [c], n) == MemAt(init, h, n)
  {
    if n > 0 {
      MemAtLonger(init, h, c, n - 1);
    }
  }

  /** Between two points of a run a Ref's version grows, and if it does not the Ref keeps its value. */
  lemma {:induction false} VersionGrows(init: Mem, h: seq<Commit>, i: nat, n: nat, r: RefId)
    requires i <= n <= |h| && r in init
    ensures r in MemAt(init, h, n) && r in MemAt(init, h, i)
    ensures MemAt(init, h, i)[r].version <= MemAt(init, h, n)[r].version
    ensures MemAt(init, h, i)[r].version == MemAt(init, h, n)[r].version ==>
      MemAt(init, h, i)[r] == MemAt(init, h, n)[r]
    ensures MemAt(init, h, i)[r].version < MemAt(init, h, n)[r].version ==> exists j :: i <= j < n && r in h[j].changes
    decreases n
  {
    if i == n {
      MemAtKeys(init, h, n);
    } else {
      VersionGrows(init, h, i, n - 1, r);
      if r in h[n - 1].changes {
        assert i <= n - 1 < n;
      }
    }
  }

  // ------------------------------------------------------------------
  // The invariant of every run

  /** The body made exactly the moves of the trace. */
  ghost predicate Follows(body: Body, trace: seq<Entry<RefId>>) {
    forall k :: 0 <= k < |trace| ==> body(Seen(trace[..k])) == Do(trace[k].op)
  }

  /** Every cell an attempt read was the committed one at some point of the attempt. */
  ghost predicate ReadsAt(init: Mem, h: seq<Commit>, began: nat, l: Log<RefId>)
    requires began <= |h|
  {
    forall r :: r in l && l[r].read.Some? ==> ReadAt(init, h, began, r, l[r].read.value)
  }

  ghost predicate ReadAt(init: Mem, h: seq<Commit>, began: nat, r: RefId, cell: Cell)
    requires began <= |h|
  {
    exists i: nat :: began <= i <= |h| && CellAt(init, h, i, r) == Some(cell)
  }

  /** What a Ref held after the first `i` commits. */
  ghost function CellAt(init: Mem, h: seq<Commit>, i: nat, r: RefId): Option<Cell>
    requires i <= |h|
  {
    var mem := MemAt(init, h, i);
    if r in mem then Some(mem[r]) else None
  }

  ghost predicate TxnOk(init: Mem, h: seq<Commit>, txn: Txn) {
    && txn.start <= txn.began <= |h|
    && 1 <= txn.attempts <= txn.began - txn.start + 1
    && (txn.limit.Some? ==> txn.attempts <= txn.limit.value)
    && Faithful(txn.trace) && On(txn.trace, init.Keys) && LogOf(txn.trace).Keys <= init.Keys
    && Follows(txn.body, txn.trace)
    && ReadsAt(init, h, txn.began, LogOf(txn.trace))
  }

  ghost predicate StatusOk(init: Mem, h: seq<Commit>, st: Status) {
    match st
    case Running(txn) => TxnOk(init, h, txn)
    case Conflicted(n, start) => n <= |h| - start
    case _ => true
  }

  /** A commit of the history is a serial run on the memory before it. */
  ghost predicate CommitOk(mem: Mem, c: Commit) {
    && Replay(Start(Values(mem)), c.trace).Some?
    && Store(Replay(Start(Values(mem)), c.trace).value) == Values(Published(mem, c.changes))
    && SeesSerially(Start(Values(mem)), c.trace, LogOf(c.trace))
    && Follows(c.body, c.trace) && c.body(Seen(c.trace)) == Return(c.result)
    && On(c.trace, mem.Keys)
  }

  ghost predicate HistoryOk(init: Mem, h: seq<Commit>) {
    forall i :: 0 <= i < |h| ==> CommitOk(MemAt(init, h, i), h[i])
  }

  ghost predicate Inv(init: Mem, s: State) {
    && s.mem == MemAt(init, s.history, |s.history|)
    && s.mem.Keys == init.Keys
    && HistoryOk(init, s.history)
    && forall t :: t in s.txns ==> StatusOk(init, s.history, s.txns[t])
  }

  lemma StatusOkGrows(init: Mem, h: seq<Commit>, c: Commit, st: Status)
    requires StatusOk(init, h, st)
    ensures StatusOk(init, h + [c], st)
  {
    if st.Running? {
      var l := LogOf(st.txn.trace);
      forall r | r in l && l[r].read.Some? ensures ReadAt(init, h + [c], st.txn.began, r, l[r].read.value) {
        var i: nat :| st.txn.began <= i <= |h| && CellAt(init, h, i, r) == Some(l[r].read.value);
        MemAtLonger(init, h, c, i);
        assert CellAt(init, h + [c], i, r) == Some(l[r].read.value);
      }
    }
  }

  lemma FollowsSnoc(body: Body, trace: seq<Entry<RefId>>, e: Entry<RefId>)
    requires Follows(body, trace) && body(Seen(trace)) == Do(e.op)
    ensures Follows(body, trace + [e])
  {
    var longer := trace + [e];
    forall k | 0 <= k < |longer| ensures body(Seen(longer[..k])) == Do(longer[k].op) {
      assert longer[..k] == trace[..k];
      if k == |trace| {
        assert trace[..k] == trace;
      }
    }
  }

  lemma ReadsAtSnoc(init: Mem, h: seq<Commit>, began: nat, l: Log<RefId>, op: Op<RefId>)
    requires began <= |h| && ReadsAt(init, h, began, l)
    requires op.ref in MemAt(init, h, |h|)
    ensures ReadsAt(init, h, began, ApplyOp(l, op, CellFor(l, op.ref, MemAt(init, h, |h|))).0)
  {
    var mem := MemAt(init, h, |h|);
    var l1 := ApplyOp(l, op, CellFor(l, op.ref, mem)).0;
    forall r | r in l1 && l1[r].read.Some? ensures ReadAt(init, h, began, r, l1[r].read.value) {
      if r in l && l[r].read.Some? {
        assert l1[r].read == l[r].read;
        assert ReadAt(init, h, began, r, l[r].read.value);
      } else {
        assert CellAt(init, h, |h|, r) == Some(l1[r].read.value);
      }
    }
  }

  lemma PerformedOk(init: Mem, h: seq<Commit>, txn: Txn, op: Op<RefId>)
    requires TxnOk(init, h, txn) && MemAt(init, h, |h|).Keys == init.Keys
    requires op.ref in init && txn.body(Seen(txn.trace)) == Do(op)
    ensures TxnOk(init, h, Performed(txn, op, MemAt(init, h, |h|)))
  {
    var l := LogOf(txn.trace);
    var cell := CellFor(l, op.ref, MemAt(init, h, |h|));
    var e := Entry(op, cell, ApplyOp(l, op, cell).1);
    FaithfulSnoc(txn.trace, e);
    FollowsSnoc(txn.body, txn.trace, e);
    ReadsAtSnoc(init, h, txn.began, l, op);
  }

  /** A Ref whose version is the one an attempt read still holds the value it read. */
  lemma ReadsIdentify(init: Mem, h: seq<Commit>, began: nat, l: Log<RefId>)
    requires began <= |h| && ReadsAt(init, h, began, l)
    requires MemAt(init, h, |h|).Keys == init.Keys && l.Keys <= init.Keys
    ensures VersionsIdentify(l, MemAt(init, h, |h|))
  {
    forall r | r in l && l[r].read.Some? && l[r].read.value.version == MemAt(init, h, |h|)[r].version
      ensures l[r].read.value == MemAt(init, h, |h|)[r]
    {
      var i: nat :| began <= i <= |h| && CellAt(init, h, i, r) == Some(l[r].read.value);
      VersionGrows(init, h, i, |h|, r);
    }
  }

  /** A failed validation proves a commit to that Ref during the attempt. */
  lemma VersionMoved(init: Mem, h: seq<Commit>, txn: Txn, r: RefId)
    requires TxnOk(init, h, txn) && MemAt(init, h, |h|).Keys == init.Keys
    requires r in Conflicts(LogOf(txn.trace), MemAt(init, h, |h|))
    ensures exists j :: txn.began <= j < |h| && r in h[j].changes
  {
    var l := LogOf(txn.trace);
    var i: nat :| txn.began <= i <= |h| && CellAt(init, h, i, r) == Some(l[r].read.value);
    VersionGrows(init, h, i, |h|, r);
    var j :| i <= j < |h| && r in h[j].changes;
    assert txn.began <= j < |h|;
  }

  lemma CommittedOk(init: Mem, h: seq<Commit>, t: TxId, txn: Txn, valid: Validator, changes: map<RefId, Value>,
      result: Value)
    requires TxnOk(init, h, txn) && MemAt(init, h, |h|).Keys == init.Keys
    requires Decide(LogOf(txn.trace), MemAt(init, h, |h|), valid) == Publish(changes)
    requires txn.body(Seen(txn.trace)) == Return(result)
    ensures CommitOk(MemAt(init, h, |h|), Commit(t, txn.body, txn.trace, result, changes))
  {
    var mem := MemAt(init, h, |h|);
    DecidePublish(LogOf(txn.trace), mem, valid, changes);
    ReadsIdentify(init, h, txn.began, LogOf(txn.trace));
    CommitIsReplay(txn.trace, mem, changes);
  }

  lemma HistorySnocOk(init: Mem, h: seq<Commit>, c: Commit)
    requires HistoryOk(init, h) && CommitOk(MemAt(init, h, |h|), c)
    ensures HistoryOk(init, h + [c])
  {
    hide CommitOk, MemAt;
    forall i: nat | i < |h| + 1 ensures CommitOk(MemAt(init, h + [c], i), (h + [c])[i]) {
      MemAtLonger(init, h, c, i);
      if i < |h| {
        assert CommitOk(MemAt(init, h, i), h[i]);
      }
    }
  }

  lemma FreshOk(init: Mem, h: seq<Commit>, body: Body, limit: Option<nat>)
    requires limit != Some(0)
    ensures StatusOk(init, h, Running(Txn(body, limit, [], 1, |h|, |h|)))
  {
  }

  lemma NextKeepsInv(init: Mem, s: State, a: Label, valid: Validator)
    requires Inv(init, s)
    ensures Inv(init, Next(s, a, valid))
  {
    hide HistoryOk, MemAt;
    if a.Begin? {
      if a.limit != Some(0) {
        FreshOk(init, s.history, a.body, a.limit);
        StatusSetKeepsInv(init, s, a.t, Running(Txn(a.body, a.limit, [], 1, |s.history|, |s.history|)));
      }
    } else if a.t in s.txns && s.txns[a.t].Running? {
      assert StatusOk(init, s.history, s.txns[a.t]);
      MovedKeepsInv(init, s, a.t, s.txns[a.t].txn, valid);
    }
  }

  lemma StatusSetKeepsInv(init: Mem, s: State, t: TxId, st: Status)
    requires Inv(init, s) && StatusOk(init, s.history, st)
    ensures Inv(init, s.(txns := s.txns[t := st]))
  {
  }

  lemma MovedKeepsInv(init: Mem, s: State, t: TxId, txn: Txn, valid: Validator)
    requires Inv(init, s) && TxnOk(init, s.history, txn)
    ensures LogOf(txn.trace).Keys <= s.mem.Keys
    ensures Inv(init, Moved(s, t, txn, valid))
  {
    match txn.body(Seen(txn.trace)) {
      case Fail => StatusSetKeepsInv(init, s, t, Raised);
      case Do(op) =>
        if op.ref in s.mem {
          PerformedOk(init, s.history, txn, op);
          StatusSetKeepsInv(init, s, t, Running(Performed(txn, op, s.mem)));
        }
      case Return(v) => EndedKeepsInv(init, s, t, txn, valid, v);
    }
  }

  lemma EndedKeepsInv(init: Mem, s: State, t: TxId, txn: Txn, valid: Validator, v: Value)
    requires Inv(init, s) && TxnOk(init, s.history, txn) && txn.body(Seen(txn.trace)) == Return(v)
    ensures LogOf(txn.trace).Keys <= s.mem.Keys
    ensures Inv(init, Moved(s, t, txn, valid))
  {
    hide CommitOk;
    match Decide(LogOf(txn.trace), s.mem, valid) {
      case Conflict(rs) =>
        RetriedOk(init, s.history, txn);
        StatusSetKeepsInv(init, s, t, Retried(txn, |s.history|));
      case Raise => StatusSetKeepsInv(init, s, t, Raised);
      case Publish(changes) =>
        CommittedOk(init, s.history, t, txn, valid, changes, v);
        HistorySnocOk(init, s.history, Commit(t, txn.body, txn.trace, v, changes));
        CommittedKeepsInv(init, s, t, txn, v, changes);
    }
  }

  lemma RetriedOk(init: Mem, h: seq<Commit>, txn: Txn)
    requires TxnOk(init, h, txn) && MemAt(init, h, |h|).Keys == init.Keys
    requires Conflicts(LogOf(txn.trace), MemAt(init, h, |h|)) != {}
    ensures StatusOk(init, h, Retried(txn, |h|))
  {
    var r :| r in Conflicts(LogOf(txn.trace), MemAt(init, h, |h|));
    VersionMoved(init, h, txn, r);
  }

  lemma CommittedKeepsInv(init: Mem, s: State, t: TxId, txn: Txn, result: Value, changes: map<RefId, Value>)
    requires Inv(init, s)
    requires HistoryOk(init, s.history + [Commit(t, txn.body, txn.trace, result, changes)])
    ensures Inv(init, Committed(s, t, txn, result, changes))
  {
    hide CommitOk, HistoryOk, TxnOk;
    var c := Commit(t, txn.body, txn.trace, result, changes);
    var s1 := Committed(s, t, txn, result, changes);
    MemAtLonger(init, s.history, c, |s.history|);
    forall u | u in s1.txns ensures StatusOk(init, s1.history, s1.txns[u]) {
      if u != t {
        StatusOkGrows(init, s.history, c, s.txns[u]);
      }
    }
  }

  lemma {:induction false} ExecInv(store: map<RefId, Value>, run: seq<Label>, valid: Validator)
    ensures Inv(Init(store).mem, Exec(Init(store), run, valid))
    decreases |run|
  {
    if run != [] {
      ExecInv(store, run[..|run| - 1], valid);
      NextKeepsInv(Init(store).mem, Exec(Init(store), run[..|run| - 1], valid), run[|run| - 1], valid);
    }
  }

  // ------------------------------------------------------------------
  // Serializability

  lemma CommitReplays(mem: Mem, c: Commit)
    requires CommitOk(mem, c)
    ensures ReplayCommit(Values(mem), c) == Some(Values(Published(mem, c.changes)))
  {
  }

  lemma {:induction false} HistoryReplays(init: Mem, h: seq<Commit>, n: nat)
    requires HistoryOk(init, h) && n <= |h|
    ensures ReplayHistory(Values(init), h, n) == Some(Values(MemAt(init, h, n)))
  {
    hide CommitOk;
    if n > 0 {
      HistoryReplays(init, h, n - 1);
      CommitReplays(MemAt(init, h, n - 1), h[n - 1]);
    }
  }

  /** Commit `i` saw in its protected Refs what its replay after the earlier commits sees. */
  ghost predicate SawSerially(store: map<RefId, Value>, h: seq<Commit>, i: nat)
    requires i < |h|
  {
    && ReplayHistory(store, h, i).Some?
    && SeesSerially(Start(ReplayHistory(store, h, i).value), h[i].trace, LogOf(h[i].trace))
  }

  /**
    In every interleaving of any number of transactions the committed values
    are those of replaying the committed transactions one at a time in commit
    order, and each of them saw in its protected Refs what its replay sees.
  */
  lemma Serializable(store: map<RefId, Value>, run: seq<Label>, valid: Validator)
    ensures var s := Exec(Init(store), run, valid);
      && ReplayHistory(store, s.history, |s.history|) == Some(Values(s.mem))
      && forall i :: 0 <= i < |s.history| ==> SawSerially(store, s.history, i)
  {
    ExecInv(store, run, valid);
    HistorySerial(store, Exec(Init(store), run, valid).history);
  }

  lemma HistorySerial(store: map<RefId, Value>, h: seq<Commit>)
    requires HistoryOk(Init(store).mem, h)
    ensures ReplayHistory(store, h, |h|) == Some(Values(MemAt(Init(store).mem, h, |h|)))
    ensures forall i :: 0 <= i < |h| ==> SawSerially(store, h, i)
  {
    var init := Init(store).mem;
    assert Values(init) == store;
    HistoryReplays(init, h, |h|);
    forall i: nat | 0 <= i < |h| ensures SawSerially(store, h, i) {
      HistoryReplays(init, h, i);
      assert CommitOk(MemAt(init, h, i), h[i]);
    }
  }

  /** A transaction all of whose Refs are protected: no Ref is only commuted without `ensure`. */
  predicate AllProtected(c: Commit) {
    forall k :: 0 <= k < |c.trace| ==> SlotOf(LogOf(c.trace), c.trace[k].op.ref).Protected()
  }

  lemma {:induction false} RunAloneFollows(c: Commit, mem: Mem, k: nat)
    requires CommitOk(mem, c) && AllProtected(c) && k <= |c.trace|
    ensures Replay(Start(Values(mem)), c.trace[..k]).Some?
    ensures RunAlone(c.body, Replay(Start(Values(mem)), c.trace[..k]).value, Seen(c.trace[..k]), |c.trace| - k)
         == (Replay(Start(Values(mem)), c.trace).value, Return(c.result))
    decreases |c.trace| - k
  {
    if k == |c.trace| {
      assert c.trace[..k] == c.trace;
    } else {
      RunAloneFollows(c, mem, k + 1);
      AloneStep(c, mem, k);
      hide CommitOk, AllProtected, Replay, Seen, Start, DirectOp;
    }
  }

  /** One operation of a committed body, and what it sees in the serial replay. */
  lemma AloneStep(c: Commit, mem: Mem, k: nat)
    requires CommitOk(mem, c) && AllProtected(c) && k < |c.trace|
    requires Replay(Start(Values(mem)), c.trace[..k + 1]).Some?
    ensures Replay(Start(Values(mem)), c.trace[..k]).Some?
    ensures c.body(Seen(c.trace[..k])) == Do(c.trace[k].op)
    ensures var step := DirectOp(Replay(Start(Values(mem)), c.trace[..k]).value, c.trace[k].op);
      && Replay(Start(Values(mem)), c.trace[..k + 1]) == Some(step.0)
      && Seen(c.trace[..k + 1]) == Seen(c.trace[..k]) + [step.1]
  {
    var (p0, e) := (Start(Values(mem)), c.trace[k]);
    OneEntry(p0, c.trace, k + 1);
    assert SeesAt(p0, c.trace, LogOf(c.trace), k);
    assert Seen(c.trace[..k + 1]) == Seen(c.trace[..k]) + [e.seen];
    hide Published, LogOf, Seen, Start, Replay;
    DirectOpRaises(Replay(p0, c.trace[..k]).value, e.op);
  }

  /** A direct operation that raises changes nothing. */
  lemma DirectOpRaises(p: Plain<RefId>, op: Op<RefId>)
    ensures DirectOp(p, op).1.None? ==> DirectOp(p, op).0 == p
  {
  }

  /** What the body of commit `i` does alone on the store left by the commits before it. */
  ghost predicate RanAlone(store: map<RefId, Value>, h: seq<Commit>, i: nat)
    requires i < |h|
  {
    && ReplayHistory(store, h, i).Some?
    && var (after, last) := RunAlone(h[i].body, Start(ReplayHistory(store, h, i).value), [], |h[i].trace|);
    && ReplayHistory(store, h, i + 1) == Some(Store(after))
    && last == Return(h[i].result)
  }

  /**
    A committed transaction with no commute-only Ref did what its body does
    when it runs alone on the store left by the commits before it: the same
    store, the same result.
  */
  lemma CommittedBodyRanAlone(store: map<RefId, Value>, run: seq<Label>, valid: Validator, i: nat)
    requires i < |Exec(Init(store), run, valid).history|
    requires AllProtected(Exec(Init(store), run, valid).history[i])
    ensures RanAlone(store, Exec(Init(store), run, valid).history, i)
  {
    ExecInv(store, run, valid);
    HistoryRanAlone(store, Exec(Init(store), run, valid).history, i);
  }

  lemma HistoryRanAlone(store: map<RefId, Value>, h: seq<Commit>, i: nat)
    requires HistoryOk(Init(store).mem, h) && i < |h| && AllProtected(h[i])
    ensures RanAlone(store, h, i)
  {
    var init := Init(store).mem;
    assert Values(init) == store;
    HistoryReplays(init, h, i);
    HistoryReplays(init, h, i + 1);
    assert CommitOk(MemAt(init, h, i), h[i]);
    hide HistoryOk, CommitOk, AllProtected, MemAt, Init;
    AloneFromStart(h[i], MemAt(init, h, i));
  }

  lemma AloneFromStart(c: Commit, mem: Mem)
    requires CommitOk(mem, c) && AllProtected(c)
    ensures ReplayCommit(Values(mem), c) ==
      Some(Store(RunAlone(c.body, Start(Values(mem)), [], |c.trace|).0))
    ensures RunAlone(c.body, Start(Values(mem)), [], |c.trace|).1 == Return(c.result)
  {
    RunAloneFollows(c, mem, 0);
    hide CommitOk, AllProtected, RunAlone, Start, Store;
    assert c.trace[..0] == [] && Seen([]) == [];
  }

  /** A Ref's version is the number of commits that assigned it, at every point of every run. */
  lemma VersionCountsCommits(store: map<RefId, Value>, run: seq<Label>, valid: Validator, r: RefId)
    requires r in store
    ensures var s := Exec(Init(store), run, valid);
      r in s.mem && s.mem[r].version == Count(s.history, |s.history|, r)
  {
    ExecInv(store, run, valid);
    var h := Exec(Init(store), run, valid).history;
    MemAtVersion(Init(store).mem, h, |h|, r);
  }

  // ------------------------------------------------------------------
  // Whose commits they are

  /** The commits of the history belong to different transactions, exactly the ones that are done. */
  ghost predicate Owned(s: State) {
    && (forall i :: 0 <= i < |s.history| ==>
          s.history[i].who in s.txns && s.txns[s.history[i].who] == Done(s.history[i].result))
    && (forall i, j :: 0 <= i < j < |s.history| ==> s.history[i].who != s.history[j].who)
    && (forall t :: t in s.txns && s.txns[t].Done? ==> CommittedBy(s.history, t))
  }

  ghost predicate CommittedBy(h: seq<Commit>, t: TxId) { exists i :: 0 <= i < |h| && h[i].who == t }

  lemma StatusSetOwned(s: State, t: TxId, st: Status)
    requires Owned(s) && (t in s.txns ==> !s.txns[t].Done?) && !st.Done?
    ensures Owned(s.(txns := s.txns[t := st]))
  {
  }

  lemma CommittedOwned(s: State, t: TxId, txn: Txn, result: Value, changes: map<RefId, Value>)
    requires Owned(s) && t in s.txns && !s.txns[t].Done?
    ensures Owned(Committed(s, t, txn, result, changes))
  {
    var s1 := Committed(s, t, txn, result, changes);
    assert s1.history[|s.history|].who == t;
    forall u | u in s1.txns && s1.txns[u].Done? ensures CommittedBy(s1.history, u) {
      if u != t {
        var i :| 0 <= i < |s.history| && s.history[i].who == u;
        assert s1.history[i].who == u;
      }
    }
  }

  lemma NextOwned(s: State, a: Label, valid: Validator)
    requires Owned(s)
    ensures Owned(Next(s, a, valid))
  {
    hide Owned, Decide, LogOf, Performed, Committed;
    match a
    case Begin(t, body, limit) =>
      if t !in s.txns {
        StatusSetOwned(s, t, Running(Txn(body, limit, [], 1, |s.history|, |s.history|)));
      }
    case Step(t) =>
      if t in s.txns && s.txns[t].Running? && LogOf(s.txns[t].txn.trace).Keys <= s.mem.Keys {
        var txn := s.txns[t].txn;
        match txn.body(Seen(txn.trace))
        case Fail => StatusSetOwned(s, t, Raised);
        case Do(op) =>
          if op.ref in s.mem {
            StatusSetOwned(s, t, Running(Performed(txn, op, s.mem)));
          }
        case Return(v) =>
          match Decide(LogOf(txn.trace), s.mem, valid)
          case Conflict(_) => StatusSetOwned(s, t, Retried(txn, |s.history|));
          case Raise => StatusSetOwned(s, t, Raised);
          case Publish(changes) => CommittedOwned(s, t, txn, v, changes);
      }
  }

  /**
    In every run the history holds exactly one commit of each transaction that
    is done, with its result, and no other.
  */
  lemma {:induction false} OneCommitEach(store: map<RefId, Value>, run: seq<Label>, valid: Validator)
    ensures Owned(Exec(Init(store), run, valid))
    decreases |run|
  {
    if run != [] {
      OneCommitEach(store, run[..|run| - 1], valid);
      NextOwned(Exec(Init(store), run[..|run| - 1], valid), run[|run| - 1], valid);
    }
  }

  /** A failed validation proves that another transaction committed to that Ref during the attempt. */
  lemma ConflictWitness(store: map<RefId, Value>, run: seq<Label>, valid: Validator, t: TxId, r: RefId)
    requires var s := Exec(Init(store), run, valid);
      && t in s.txns && s.txns[t].Running? && LogOf(s.txns[t].txn.trace).Keys <= s.mem.Keys
      && r in Conflicts(LogOf(s.txns[t].txn.trace), s.mem)
    ensures var s := Exec(Init(store), run, valid);
      exists j :: s.txns[t].txn.began <= j < |s.history| && r in s.history[j].changes && s.history[j].who != t
  {
    ExecInv(store, run, valid);
    OneCommitEach(store, run, valid);
    WitnessIn(Init(store).mem, Exec(Init(store), run, valid), t, r);
  }

  lemma WitnessIn(init: Mem, s: State, t: TxId, r: RefId)
    requires Inv(init, s) && Owned(s) && t in s.txns && s.txns[t].Running?
    requires LogOf(s.txns[t].txn.trace).Keys <= s.mem.Keys && r in Conflicts(LogOf(s.txns[t].txn.trace), s.mem)
    ensures exists j :: s.txns[t].txn.began <= j < |s.history| && r in s.history[j].changes && s.history[j].who != t
  {
    hide HistoryOk, TxnOk, Conflicts, LogOf, MemAt, Owned;
    assert StatusOk(init, s.history, s.txns[t]);
    VersionMoved(init, s.history, s.txns[t].txn, r);
    NotYetOwn(s, t);
    var j :| s.txns[t].txn.began <= j < |s.history| && r in s.history[j].changes;
    assert s.history[j].who != t;
  }

  lemma NotYetOwn(s: State, t: TxId)
    requires Owned(s) && t in s.txns && !s.txns[t].Done?
    ensures !CommittedBy(s.history, t)
    ensures forall j :: 0 <= j < |s.history| ==> s.history[j].who != t
  {
  }

  /**
    Retrying costs somebody else's commits: an attempt number n of a
    transaction, or its failure after n attempts, proves that at least n - 1,
    or n, commits happened since it started, none of them its own.
  */
  lemma RetriesCostCommits(store: map<RefId, Value>, run: seq<Label>, valid: Validator, t: TxId)
    requires t in Exec(Init(store), run, valid).txns
    ensures var s := Exec(Init(store), run, valid);
      match s.txns[t]
      case Running(txn) =>
        txn.attempts - 1 <= |s.history| - txn.start && (txn.limit.Some? ==> txn.attempts <= txn.limit.value)
      case Conflicted(n, start) => n <= |s.history| - start
      case _ => true
    ensures var s := Exec(Init(store), run, valid);
      s.txns[t].Running? || s.txns[t].Conflicted? ==> !CommittedBy(s.history, t)
  {
    ExecInv(store, run, valid);
    OneCommitEach(store, run, valid);
    var s := Exec(Init(store), run, valid);
    assert StatusOk(Init(store).mem, s.history, s.txns[t]);
    if !s.txns[t].Done? {
      NotYetOwn(s, t);
    }
  }
}
