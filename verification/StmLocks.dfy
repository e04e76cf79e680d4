/**
  `commit` as separate lock steps (src/basilisp/lang/stm.py:226-257).

  A committing transaction takes the locks of its Refs one at a time in
  ascending order of identity, decides, assigns one Ref at a time, and gives
  the locks back one at a time; other transactions move between any two of
  these steps. `FineRefines` shows that every such run is a run of `StmRuns`,
  where a commit is one step, and `NoWaitingCycle` and `CommitterCanStep` that
  committers never block one another for good.
*/
module StmLocks {
  import opened Prelude
  import opened StmLog
  import opened StmRuns

  datatype Phase =
    | InBody(st: Status)
    | Locking(txn: Txn, result: Value, held: set<RefId>)
    | Publishing(todo: map<RefId, Value>, held: set<RefId>, st: Status)
    | Releasing(held: set<RefId>, st: Status)
  {
    function Held(): set<RefId> {
      match this
      case InBody(_) => {}
      case Locking(_, _, h) => h
      case Publishing(_, h, _) => h
      case Releasing(h, _) => h
    }

    /** The assignments that `commit` has decided on and not yet made. */
    function Todo(): map<RefId, Value> {
      if Publishing? then todo else map[]
    }
  }

  datatype Fine = Fine(mem: Mem, phases: map<TxId, Phase>, locks: map<RefId, TxId>, history: seq<Commit>)

  datatype FineLabel =
    | FBegin(t: TxId, body: Body, limit: Option<nat>)
    | FBody(t: TxId)            // one operation of the body, or its return or failure
    | FLock(t: TxId)            // take the next lock in ascending order
    | FDecide(t: TxId)          // all locks held: validate and compute
    | FAssign(t: TxId, r: RefId)
    | FRelease(t: TxId, r: RefId)

  function FineInit(store: map<RefId, Value>): Fine {
    Fine(Init(store).mem, map[], map[], [])
  }

  /** The locks a committing transaction still has to take. */
  function Missing(txn: Txn, held: set<RefId>): set<RefId> { LogOf(txn.trace).Keys - held }

  predicate IsLeast(r: RefId, s: set<RefId>) { r in s && forall q :: q in s ==> r <= q }

  /** The least of a set of Refs: the next one in the order of `sorted(refs, key=id)`. */
  function Least(s: set<RefId>): (r: RefId)
    requires s != {}
    ensures IsLeast(r, s)
  {
    LeastExists(s);
    var r :| IsLeast(r, s);
    r
  }

  lemma {:induction false} LeastExists(s: set<RefId>)
    requires s != {}
    ensures exists r :: IsLeast(r, s)
    decreases |s|
  {
    var x :| x in s;
    if s == {x} {
      assert IsLeast(x, s);
    } else {
      LeastExists(s - {x});
      var y :| IsLeast(y, s - {x});
      var z := if x <= y then x else y;
      assert forall q :: q in s ==> q == x || q in s - {x};
      assert IsLeast(z, s);
    }
  }

  /** An operation waits for the lock of a Ref it has to read. */
  predicate Blocked(f: Fine, txn: Txn, op: Op<RefId>) {
    SlotOf(LogOf(txn.trace), op.ref).read.None? && op.ref in f.locks
  }

  function BodyMoved(f: Fine, t: TxId, txn: Txn): Fine {
    match txn.body(Seen(txn.trace))
    case Fail => f.(phases := f.phases[t := InBody(Raised)])
    case Do(op) =>
      if op.ref in f.mem && !Blocked(f, txn, op)
      then f.(phases := f.phases[t := InBody(Running(Performed(txn, op, f.mem)))])
      else f
    case Return(v) => f.(phases := f.phases[t := Locking(txn, v, {})])
  }

  function Locked(f: Fine, t: TxId, p: Phase): Fine
    requires p.Locking?
  {
    var missing := Missing(p.txn, p.held);
    if missing == {} || Least(missing) in f.locks || Least(missing) !in f.mem then f
    else
      var r := Least(missing);
      f.(phases := f.phases[t := Locking(p.txn, p.result, p.held + {r})], locks := f.locks[r := t])
  }

  function Decided(f: Fine, t: TxId, p: Phase, valid: Validator): Fine
    requires p.Locking?
  {
    var log := LogOf(p.txn.trace);
    if !(log.Keys <= p.held && log.Keys <= f.mem.Keys) then f
    else
      match Decide(log, f.mem, valid)
      case Conflict(_) => f.(phases := f.phases[t := Releasing(p.held, Retried(p.txn, |f.history|))])
      case Raise => f.(phases := f.phases[t := Releasing(p.held, Raised)])
      case Publish(changes) =>
        f.(phases := f.phases[t := Publishing(changes, p.held, Done(p.result))],
           history := f.history + [Commit(t, p.txn.body, p.txn.trace, p.result, changes)])
  }

  function Assigned(f: Fine, t: TxId, p: Phase, r: RefId): Fine
    requires p.Publishing?
  {
    if r !in p.todo || r !in f.mem then f
    else
      f.(mem := f.mem[r := Cell(p.todo[r], f.mem[r].version + 1)],
         phases := f.phases[t := Publishing(p.todo - {r}, p.held, p.st)])
  }

  function Released(f: Fine, t: TxId, held: set<RefId>, st: Status, r: RefId): Fine {
    if held == {} then f.(phases := f.phases[t := InBody(st)])
    else if r in held then f.(phases := f.phases[t := Releasing(held - {r}, st)], locks := f.locks - {r})
    else f
  }

  function FineNext(f: Fine, a: FineLabel, valid: Validator): Fine {
    if a.FBegin? then
      if a.t in f.phases || a.limit == Some(0) then f
      else f.(phases := f.phases[a.t := InBody(Running(Txn(a.body, a.limit, [], 1, |f.history|, |f.history|)))])
    else if a.t !in f.phases then f
    else
      var p := f.phases[a.t];
      match a
      case FBody(t) => if p.InBody? && p.st.Running? then BodyMoved(f, t, p.st.txn) else f
      case FLock(t) => if p.Locking? then Locked(f, t, p) else f
      case FDecide(t) => if p.Locking? then Decided(f, t, p, valid) else f
      case FAssign(t, r) => if p.Publishing? then Assigned(f, t, p, r) else f
      case FRelease(t, r) =>
        if p.Publishing? && p.todo == map[] then Released(f, t, p.held, p.st, r)
        else if p.Releasing? then Released(f, t, p.held, p.st, r)
        else f
      case FBegin(_, _, _) => f
  }

  function FineExec(f: Fine, run: seq<FineLabel>, valid: Validator): Fine
    decreases |run|
  {
    if run == [] then f
    else FineNext(FineExec(f, run[..|run| - 1], valid), run[|run| - 1], valid)
  }

  // ------------------------------------------------------------------
  // The abstraction: a commit happens when it is decided

  /** What a Ref will hold once its lock holder has assigned it. */
  function Settled(f: Fine, r: RefId): Cell
    requires r in f.mem
  {
    if r in f.locks && f.locks[r] in f.phases && r in f.phases[f.locks[r]].Todo()
    then Cell(f.phases[f.locks[r]].Todo()[r], f.mem[r].version + 1)
    else f.mem[r]
  }

  function AbsMem(f: Fine): Mem { map r | r in f.mem :: Settled(f, r) }

  function AbsStatus(p: Phase): Status {
    match p
    case InBody(st) => st
    case Locking(txn, _, _) => Running(txn)
    case Publishing(_, _, st) => st
    case Releasing(_, st) => st
  }

  function Abs(f: Fine): State {
    State(AbsMem(f), map t | t in f.phases :: AbsStatus(f.phases[t]), f.history)
  }

  /** Locks and phases agree; locks are taken in ascending order; only held Refs are still to be assigned. */
  ghost predicate FineOk(f: Fine) {
    && (forall r :: r in f.locks ==> f.locks[r] in f.phases && r in f.phases[f.locks[r]].Held())
    && (forall t :: t in f.phases ==> PhaseOk(f, t, f.phases[t]))
  }

  ghost predicate PhaseOk(f: Fine, t: TxId, p: Phase) {
    && p.Held() <= f.mem.Keys
    && (forall r :: r in p.Held() ==> r in f.locks && f.locks[r] == t)
    && p.Todo().Keys <= p.Held()
    && (AbsStatus(p).Running? ==> LogOf(AbsStatus(p).txn.trace).Keys <= f.mem.Keys)
    && (p.Locking? ==>
      && p.held <= LogOf(p.txn.trace).Keys
      && p.txn.body(Seen(p.txn.trace)) == Return(p.result)
      && forall r, q :: r in p.held && q in Missing(p.txn, p.held) ==> r < q)
  }

  /** The step of `StmRuns` that a lock step makes, if it makes one. */
  function Matching(f: Fine, a: FineLabel): Option<Label> {
    match a
    case FBegin(t, body, limit) => Some(Begin(t, body, limit))
    case FBody(t) =>
      if t in f.phases && f.phases[t].InBody? && f.phases[t].st.Running?
         && !f.phases[t].st.txn.body(Seen(f.phases[t].st.txn.trace)).Return?
      then Some(Step(t)) else None
    case FDecide(t) => if t in f.phases && f.phases[t].Locking? then Some(Step(t)) else None
    case _ => None
  }

  /** One lock step is one step of `StmRuns` or no step at all. */
  ghost predicate StepRefines(f: Fine, f1: Fine, a: FineLabel, valid: Validator) {
    || Abs(f1) == Abs(f)
    || (Matching(f, a).Some? && Abs(f1) == Next(Abs(f), Matching(f, a).value, valid))
  }

  // ------------------------------------------------------------------
  // Every lock step refines

  lemma DecideAgrees(l: Log<RefId>, m1: Mem, m2: Mem, valid: Validator)
    requires l.Keys <= m1.Keys && l.Keys <= m2.Keys
    requires forall r :: r in l ==> m1[r] == m2[r]
    ensures Decide(l, m1, valid) == Decide(l, m2, valid)
  {
    assert Conflicts(l, m1) == Conflicts(l, m2);
    assert AllDefined(l, m1) == AllDefined(l, m2);
    if AllDefined(l, m1) {
      assert NewValues(l, m1) == NewValues(l, m2);
    }
  }

  /** Changing the phase of one transaction, without locks or assignments, changes only its status. */
  lemma AbsPhaseSet(f: Fine, t: TxId, p: Phase, h: seq<Commit>)
    requires FineOk(f) && t in f.phases
    requires p.Held() == f.phases[t].Held() && p.Todo() == f.phases[t].Todo()
    ensures Abs(f.(phases := f.phases[t := p], history := h))
         == State(AbsMem(f), Abs(f).txns[t := AbsStatus(p)], h)
  {
    var f1 := f.(phases := f.phases[t := p], history := h);
    assert AbsMem(f1) == AbsMem(f) by {
      forall r | r in f.mem ensures Settled(f1, r) == Settled(f, r) {}
    }
  }

  /** A phase that keeps the locks of its transaction may replace its phase. */
  lemma PhaseSetOk(f: Fine, t: TxId, p: Phase, h: seq<Commit>)
    requires FineOk(f) && t in f.phases && p.Held() == f.phases[t].Held() && PhaseOk(f, t, p)
    ensures FineOk(f.(phases := f.phases[t := p], history := h))
  {
    hide LogOf;
    var f1 := f.(phases := f.phases[t := p], history := h);
    forall u | u in f1.phases ensures PhaseOk(f1, u, f1.phases[u]) {
      if u != t {
        assert PhaseOk(f, u, f.phases[u]);
      }
    }
  }

  lemma PerformedAgrees(f: Fine, txn: Txn, op: Op<RefId>)
    requires op.ref in f.mem && !Blocked(f, txn, op) && LogOf(txn.trace).Keys <= f.mem.Keys
    ensures Performed(txn, op, f.mem) == Performed(txn, op, AbsMem(f))
    ensures LogOf(Performed(txn, op, f.mem).trace).Keys <= f.mem.Keys
  {
    var e := Performed(txn, op, f.mem).trace[|txn.trace|];
    assert (txn.trace + [e])[..|txn.trace|] == txn.trace;
  }

  lemma BodyRefines(f: Fine, t: TxId, valid: Validator)
    requires FineOk(f) && t in f.phases && f.phases[t].InBody? && f.phases[t].st.Running?
    ensures FineOk(BodyMoved(f, t, f.phases[t].st.txn))
    ensures StepRefines(f, BodyMoved(f, t, f.phases[t].st.txn), FBody(t), valid)
  {
    hide LogOf, Performed, AbsMem, FineOk;
    var txn := f.phases[t].st.txn;
    PhaseOf(f, t);
    AbsMemKeys(f);
    match txn.body(Seen(txn.trace)) {
      case Fail =>
        PhaseSetOk(f, t, InBody(Raised), f.history);
        AbsPhaseSet(f, t, InBody(Raised), f.history);
      case Do(op) =>
        if op.ref in f.mem && !Blocked(f, txn, op) {
          PerformedAgrees(f, txn, op);
          PhaseSetOk(f, t, InBody(Running(Performed(txn, op, f.mem))), f.history);
          AbsPhaseSet(f, t, InBody(Running(Performed(txn, op, f.mem))), f.history);
        }
      case Return(v) =>
        PhaseSetOk(f, t, Locking(txn, v, {}), f.history);
        AbsPhaseSet(f, t, Locking(txn, v, {}), f.history);
        assert Abs(f).txns[t := Running(txn)] == Abs(f).txns;
    }
  }

  lemma PhaseOf(f: Fine, t: TxId)
    requires FineOk(f) && t in f.phases
    ensures PhaseOk(f, t, f.phases[t])
  {
  }

  lemma HoldsLocks(f: Fine, t: TxId)
    requires FineOk(f) && t in f.phases
    ensures forall r :: r in f.phases[t].Held() ==> r in f.mem && r in f.locks && f.locks[r] == t
  {
    PhaseOf(f, t);
    hide FineOk;
  }

  lemma AbsMemKeys(f: Fine)
    ensures AbsMem(f).Keys == f.mem.Keys
  {
  }

  /** A phase stays consistent while the memory keeps its Refs and the phase keeps its locks. */
  lemma PhaseStaysOk(f: Fine, f1: Fine, u: TxId, p: Phase)
    requires PhaseOk(f, u, p) && f1.mem.Keys == f.mem.Keys
    requires forall r :: r in p.Held() ==> r in f1.locks && f1.locks[r] == u
    ensures PhaseOk(f1, u, p)
  {
  }

  /** Taking the least missing lock keeps the taken ones below the missing ones. */
  lemma LockInOrder(txn: Txn, held: set<RefId>, r: RefId)
    requires IsLeast(r, Missing(txn, held))
    requires forall x, q :: x in held && q in Missing(txn, held) ==> x < q
    ensures forall x, q :: x in held + {r} && q in Missing(txn, held + {r}) ==> x < q
  {
    forall x, q | x in held + {r} && q in Missing(txn, held + {r}) ensures x < q {
      assert q in Missing(txn, held) && q != r;
    }
  }

  lemma LockedOk(f: Fine, t: TxId, p: Phase, r: RefId)
    requires FineOk(f) && t in f.phases && f.phases[t] == p && p.Locking?
    requires IsLeast(r, Missing(p.txn, p.held)) && r !in f.locks && r in f.mem
    ensures FineOk(f.(phases := f.phases[t := Locking(p.txn, p.result, p.held + {r})], locks := f.locks[r := t]))
  {
    hide LogOf;
    var f1 := f.(phases := f.phases[t := Locking(p.txn, p.result, p.held + {r})], locks := f.locks[r := t]);
    assert PhaseOk(f, t, p);
    LockInOrder(p.txn, p.held, r);
    forall u | u in f1.phases && u != t ensures PhaseOk(f1, u, f1.phases[u]) {
      assert PhaseOk(f, u, f.phases[u]);
      PhaseStaysOk(f, f1, u, f.phases[u]);
    }
    assert PhaseOk(f1, t, f1.phases[t]);
  }

  lemma LockedRefines(f: Fine, t: TxId)
    requires FineOk(f) && t in f.phases && f.phases[t].Locking?
    ensures FineOk(Locked(f, t, f.phases[t]))
    ensures Abs(Locked(f, t, f.phases[t])) == Abs(f)
  {
    hide LogOf, PhaseOk;
    var p := f.phases[t];
    var f1 := Locked(f, t, p);
    if f1 != f {
      LockedOk(f, t, p, Least(Missing(p.txn, p.held)));
      assert Abs(f1).txns == Abs(f).txns;
    }
  }

  lemma RetriedLog(txn: Txn, now: nat)
    ensures Retried(txn, now).Running? ==> LogOf(Retried(txn, now).txn.trace) == map[]
  {
  }

  lemma DecidedRefines(f: Fine, t: TxId, valid: Validator)
    requires FineOk(f) && t in f.phases && f.phases[t].Locking?
    ensures FineOk(Decided(f, t, f.phases[t], valid))
    ensures StepRefines(f, Decided(f, t, f.phases[t], valid), FDecide(t), valid)
  {
    hide LogOf;
    var p := f.phases[t];
    var log := LogOf(p.txn.trace);
    assert PhaseOk(f, t, p);
    if log.Keys <= p.held {
      forall r | r in log ensures f.mem[r] == AbsMem(f)[r] {
        assert f.locks[r] == t;
      }
      DecideAgrees(log, f.mem, AbsMem(f), valid);
      AbsMemKeys(f);
      DecidedSame(f, t, p, valid);
    }
  }

  lemma DecidedSame(f: Fine, t: TxId, p: Phase, valid: Validator)
    requires FineOk(f) && t in f.phases && f.phases[t] == p && p.Locking?
    requires LogOf(p.txn.trace).Keys <= p.held && LogOf(p.txn.trace).Keys <= f.mem.Keys == AbsMem(f).Keys
    requires Decide(LogOf(p.txn.trace), f.mem, valid) == Decide(LogOf(p.txn.trace), AbsMem(f), valid)
    ensures FineOk(Decided(f, t, p, valid))
    ensures StepRefines(f, Decided(f, t, p, valid), FDecide(t), valid)
  {
    hide LogOf, AbsMem, Decide, FineOk;
    PhaseOf(f, t);
    match Decide(LogOf(p.txn.trace), f.mem, valid) {
        case Conflict(_) =>
          RetriedLog(p.txn, |f.history|);
          PhaseSetOk(f, t, Releasing(p.held, Retried(p.txn, |f.history|)), f.history);
          AbsPhaseSet(f, t, Releasing(p.held, Retried(p.txn, |f.history|)), f.history);
        case Raise =>
          PhaseSetOk(f, t, Releasing(p.held, Raised), f.history);
          AbsPhaseSet(f, t, Releasing(p.held, Raised), f.history);
        case Publish(changes) => DecidedPublishes(f, t, p, valid, changes);
    }
  }

  lemma DecidedPublishes(f: Fine, t: TxId, p: Phase, valid: Validator, changes: map<RefId, Value>)
    requires FineOk(f) && t in f.phases && f.phases[t] == p && p.Locking?
    requires LogOf(p.txn.trace).Keys <= p.held && LogOf(p.txn.trace).Keys <= f.mem.Keys
    requires Decide(LogOf(p.txn.trace), f.mem, valid) == Publish(changes)
    requires Decide(LogOf(p.txn.trace), AbsMem(f), valid) == Publish(changes)
    ensures FineOk(Decided(f, t, p, valid))
    ensures StepRefines(f, Decided(f, t, p, valid), FDecide(t), valid)
  {
    hide LogOf, Decide, AbsMem, Published, FineOk;
    PhaseOf(f, t);
    AbsMemKeys(f);
    DecidePublish(LogOf(p.txn.trace), f.mem, valid, changes);
    var h := f.history + [Commit(t, p.txn.body, p.txn.trace, p.result, changes)];
    PhaseSetOk(f, t, Publishing(changes, p.held, Done(p.result)), h);
    PublishingAbs(f, t, changes, p.held, Done(p.result), h);
    assert Abs(f).txns[t] == Running(p.txn);
  }

  /** Turning to publish `changes` to held Refs is, abstractly, having published them. */
  lemma PublishingAbs(f: Fine, t: TxId, changes: map<RefId, Value>, held: set<RefId>, st: Status, h: seq<Commit>)
    requires FineOk(f) && t in f.phases && f.phases[t].Locking? && f.phases[t].held == held
    requires changes.Keys <= held
    ensures Abs(f.(phases := f.phases[t := Publishing(changes, held, st)], history := h))
         == State(Published(AbsMem(f), changes), Abs(f).txns[t := st], h)
  {
    hide LogOf;
    var f1 := f.(phases := f.phases[t := Publishing(changes, held, st)], history := h);
    PublishingSettled(f, f1, t, changes, held, st);
    assert Abs(f1).txns == Abs(f).txns[t := st];
  }

  /** Publishing gives a changed Ref its new value at once, and no other Ref. */
  lemma PublishingAt(f: Fine, f1: Fine, t: TxId, changes: map<RefId, Value>, held: set<RefId>, st: Status, r: RefId)
    requires t in f.phases && f.phases[t].Locking? && r in f.mem
    requires r in changes ==> r in f.locks && f.locks[r] == t
    requires f1.mem == f.mem && f1.locks == f.locks && f1.phases == f.phases[t := Publishing(changes, held, st)]
    ensures Settled(f1, r) == if r in changes then Cell(changes[r], f.mem[r].version + 1) else Settled(f, r)
    ensures r in changes ==> Settled(f, r) == f.mem[r]
  {
  }

  lemma PublishingSettled(f: Fine, f1: Fine, t: TxId, changes: map<RefId, Value>, held: set<RefId>, st: Status)
    requires FineOk(f) && t in f.phases && f.phases[t].Locking? && f.phases[t].held == held
    requires changes.Keys <= held
    requires f1.mem == f.mem && f1.locks == f.locks && f1.phases == f.phases[t := Publishing(changes, held, st)]
    ensures AbsMem(f1) == Published(AbsMem(f), changes)
  {
    hide LogOf, FineOk, PhaseOk;
    HoldsLocks(f, t);
    forall r | r in f.mem
      ensures Settled(f1, r) == if r in changes then Cell(changes[r], f.mem[r].version + 1) else Settled(f, r)
      ensures r in changes ==> Settled(f, r) == f.mem[r]
    {
      PublishingAt(f, f1, t, changes, held, st, r);
    }
    hide Settled;
  }

  lemma AssignedOk(f: Fine, t: TxId, p: Phase, r: RefId)
    requires FineOk(f) && t in f.phases && f.phases[t] == p && p.Publishing? && r in p.todo
    ensures FineOk(Assigned(f, t, p, r))
  {
    hide LogOf;
    var f1 := Assigned(f, t, p, r);
    assert PhaseOk(f, t, p);
    assert f1.mem.Keys == f.mem.Keys;
    forall u | u in f1.phases && u != t ensures PhaseOk(f1, u, f1.phases[u]) {
      assert PhaseOk(f, u, f.phases[u]);
      PhaseStaysOk(f, f1, u, f.phases[u]);
    }
    assert PhaseOk(f1, t, f1.phases[t]);
  }

  /** An assignment that was decided on does not change what is settled. */
  lemma AssignedSettled(f: Fine, t: TxId, p: Phase, r: RefId)
    requires FineOk(f) && t in f.phases && f.phases[t] == p && p.Publishing? && r in p.todo && r in f.mem
    ensures AbsMem(Assigned(f, t, p, r)) == AbsMem(f)
  {
    hide LogOf;
    assert PhaseOk(f, t, p) && f.locks[r] == t;
  }

  lemma AssignedRefines(f: Fine, t: TxId, r: RefId)
    requires FineOk(f) && t in f.phases && f.phases[t].Publishing?
    ensures FineOk(Assigned(f, t, f.phases[t], r))
    ensures Abs(Assigned(f, t, f.phases[t], r)) == Abs(f)
  {
    hide FineOk, PhaseOk, AbsMem, LogOf;
    var p := f.phases[t];
    if r in p.todo && r in f.mem {
      AssignedOk(f, t, p, r);
      AssignedSettled(f, t, p, r);
    }
  }

  lemma ReleasedOk(f: Fine, t: TxId, r: RefId)
    requires FineOk(f) && t in f.phases
    requires f.phases[t].Releasing? || (f.phases[t].Publishing? && f.phases[t].todo == map[])
    ensures FineOk(Released(f, t, f.phases[t].held, f.phases[t].st, r))
  {
    var f1 := Released(f, t, f.phases[t].held, f.phases[t].st, r);
    forall u | u in f1.phases && u != t ensures PhaseOk(f1, u, f1.phases[u]) {
      hide LogOf, PhaseOk;
      HoldsLocks(f, u);
      HoldsLocks(f, t);
      PhaseOf(f, u);
      PhaseStaysOk(f, f1, u, f.phases[u]);
    }
    HoldsLocks(f, t);
    ReleasedPhase(f, t, r);
    hide LogOf, PhaseOk;
  }

  lemma ReleasedPhase(f: Fine, t: TxId, r: RefId)
    requires FineOk(f) && t in f.phases
    requires f.phases[t].Releasing? || (f.phases[t].Publishing? && f.phases[t].todo == map[])
    ensures var f1 := Released(f, t, f.phases[t].held, f.phases[t].st, r); PhaseOk(f1, t, f1.phases[t])
  {
    hide LogOf;
    PhaseOf(f, t);
    hide FineOk;
  }

  lemma ReleasedSettled(f: Fine, f1: Fine, t: TxId, r: RefId)
    requires t in f.phases && f.phases[t].Todo() == map[]
    requires r in f.phases[t].Held() ==> r in f.locks && f.locks[r] == t
    requires f1.phases.Keys == f.phases.Keys && f1.phases[t].Todo() == map[]
    requires forall u :: u in f.phases && u != t ==> f1.phases[u] == f.phases[u]
    requires f1.mem == f.mem && (f1.locks == f.locks || (f1.locks == f.locks - {r} && r in f.phases[t].Held()))
    ensures AbsMem(f1) == AbsMem(f)
  {
    forall q | q in f.mem ensures Settled(f1, q) == Settled(f, q) {
      if q in f.locks && f.locks[q] in f.phases && f.locks[q] != t {
        assert f1.phases[f.locks[q]] == f.phases[f.locks[q]];
      }
    }
  }

  lemma ReleasedRefines(f: Fine, t: TxId, r: RefId)
    requires FineOk(f) && t in f.phases
    requires f.phases[t].Releasing? || (f.phases[t].Publishing? && f.phases[t].todo == map[])
    ensures FineOk(Released(f, t, f.phases[t].held, f.phases[t].st, r))
    ensures Abs(Released(f, t, f.phases[t].held, f.phases[t].st, r)) == Abs(f)
  {
    hide LogOf, AbsMem, FineOk, PhaseOk;
    var p := f.phases[t];
    var f1 := Released(f, t, p.held, p.st, r);
    HoldsLocks(f, t);
    ReleasedOk(f, t, r);
    ReleasedSettled(f, f1, t, r);
  }

  /** Every lock step keeps the locks in order and refines: it is one step of `StmRuns`, or invisible there. */
  lemma StepOk(f: Fine, a: FineLabel, valid: Validator)
    requires FineOk(f)
    ensures FineOk(FineNext(f, a, valid))
    ensures StepRefines(f, FineNext(f, a, valid), a, valid)
  {
    if a.FBegin? {
      BeginRefines(f, a, valid);
    } else if a.t in f.phases {
      var p := f.phases[a.t];
      match a {
        case FBody(t) => if p.InBody? && p.st.Running? { BodyRefines(f, t, valid); }
        case FLock(t) => if p.Locking? { LockedRefines(f, t); }
        case FDecide(t) => if p.Locking? { DecidedRefines(f, t, valid); }
        case FAssign(t, r) => if p.Publishing? { AssignedRefines(f, t, r); }
        case FRelease(t, r) =>
          if p.Releasing? || (p.Publishing? && p.todo == map[]) { ReleasedRefines(f, t, r); }
        case FBegin(_, _, _) =>
      }
    }
  }

  lemma BeginRefines(f: Fine, a: FineLabel, valid: Validator)
    requires FineOk(f) && a.FBegin?
    ensures FineOk(FineNext(f, a, valid))
    ensures StepRefines(f, FineNext(f, a, valid), a, valid)
  {
    if !(a.t in f.phases || a.limit == Some(0)) {
      var txn := Txn(a.body, a.limit, [], 1, |f.history|, |f.history|);
      BegunOk(f, a.t, txn);
      BegunSettled(f, a.t, txn);
    }
  }

  lemma BegunOk(f: Fine, t: TxId, txn: Txn)
    requires FineOk(f) && t !in f.phases && txn.trace == []
    ensures FineOk(f.(phases := f.phases[t := InBody(Running(txn))]))
  {
    var f1 := f.(phases := f.phases[t := InBody(Running(txn))]);
    forall u | u in f1.phases ensures PhaseOk(f1, u, f1.phases[u]) {
      if u != t {
        assert PhaseOk(f, u, f.phases[u]);
        hide PhaseOk;
        PhaseStaysOk(f, f1, u, f.phases[u]);
      }
    }
  }

  lemma BegunSettled(f: Fine, t: TxId, txn: Txn)
    requires FineOk(f) && t !in f.phases
    ensures Abs(f.(phases := f.phases[t := InBody(Running(txn))]))
         == State(AbsMem(f), Abs(f).txns[t := Running(txn)], f.history)
  {
    hide PhaseOk;
    var f1 := f.(phases := f.phases[t := InBody(Running(txn))]);
    forall q | q in f.mem ensures Settled(f1, q) == Settled(f, q) {}
    hide AbsMem;
  }

  /**
    Every run of the lock steps, whatever the schedule, is a run of the
    one-step commits: there is a run of `StmRuns` that ends in the same
    committed values, statuses and history. So each single read is of a state
    between whole commits, and what is proved of `StmRuns.Exec` holds here.
    Two reads of an attempt may still have a commit between them; an attempt
    that saw such a mixture of protected Refs does not commit.
  */
  lemma {:induction false} FineRefines(store: map<RefId, Value>, run: seq<FineLabel>, valid: Validator)
    ensures FineOk(FineExec(FineInit(store), run, valid))
    ensures exists coarse: seq<Label> ::
      Abs(FineExec(FineInit(store), run, valid)) == Exec(Init(store), coarse, valid)
    decreases |run|
  {
    if run == [] {
      assert AbsMem(FineInit(store)) == Init(store).mem;
      assert Abs(FineInit(store)) == Exec(Init(store), [], valid);
    } else {
      var m := |run| - 1;
      FineRefines(store, run[..m], valid);
      var f := FineExec(FineInit(store), run[..m], valid);
      var coarse: seq<Label> :| Abs(f) == Exec(Init(store), coarse, valid);
      StepOk(f, run[m], valid);
      if Abs(FineNext(f, run[m], valid)) != Abs(f) {
        var longer := coarse + [Matching(f, run[m]).value];
        assert longer[..|coarse|] == coarse;
        assert Abs(FineNext(f, run[m], valid)) == Exec(Init(store), longer, valid);
      }
    }
  }

  /** Once no transaction holds a lock, the memory is that of the abstraction: a quiet state has whole commits only. */
  lemma QuietMemory(f: Fine)
    requires FineOk(f) && f.locks == map[]
    ensures Abs(f).mem == f.mem
  {
  }

  // ------------------------------------------------------------------
  // No deadlock

  /** `t` waits for a lock that `u` holds. */
  ghost predicate WaitsFor(f: Fine, t: TxId, u: TxId) {
    && t in f.phases && f.phases[t].Locking?
    && Missing(f.phases[t].txn, f.phases[t].held) != {}
    && var r := Least(Missing(f.phases[t].txn, f.phases[t].held));
       r in f.locks && f.locks[r] == u
  }

  ghost function Wanted(f: Fine, t: TxId): RefId
    requires t in f.phases && f.phases[t].Locking? && Missing(f.phases[t].txn, f.phases[t].held) != {}
  {
    Least(Missing(f.phases[t].txn, f.phases[t].held))
  }

  lemma WaitsAscend(f: Fine, t: TxId, u: TxId, v: TxId)
    requires FineOk(f) && WaitsFor(f, t, u) && WaitsFor(f, u, v)
    ensures Wanted(f, t) < Wanted(f, u)
  {
    assert PhaseOk(f, u, f.phases[u]);
    assert Wanted(f, t) in f.phases[u].held;
  }

  /** A chain of waiting transactions wants ever greater Refs. */
  lemma {:induction false} ChainAscends(f: Fine, chain: seq<TxId>, i: nat, j: nat)
    requires FineOk(f) && i < j < |chain| - 1
    requires forall k :: 0 <= k < |chain| - 1 ==> WaitsFor(f, chain[k], chain[k + 1])
    ensures WaitsFor(f, chain[i], chain[i + 1]) && WaitsFor(f, chain[j], chain[j + 1])
    ensures Wanted(f, chain[i]) < Wanted(f, chain[j])
    decreases j - i
  {
    assert WaitsFor(f, chain[j - 1], chain[j]) && WaitsFor(f, chain[j], chain[j + 1]);
    WaitsAscend(f, chain[j - 1], chain[j], chain[j + 1]);
    if i < j - 1 {
      ChainAscends(f, chain, i, j - 1);
    }
  }

  /** Each transaction of the list waits for the next one, and the last for the first. */
  ghost predicate WaitingCycle(f: Fine, cycle: seq<TxId>) {
    && |cycle| >= 1
    && WaitsFor(f, cycle[|cycle| - 1], cycle[0])
    && forall k :: 0 <= k < |cycle| - 1 ==> WaitsFor(f, cycle[k], cycle[k + 1])
  }

  lemma NoCycle(f: Fine, cycle: seq<TxId>)
    requires FineOk(f)
    ensures !WaitingCycle(f, cycle)
  {
    if WaitingCycle(f, cycle) {
      var n := |cycle|;
      if n == 1 {
        WaitsAscend(f, cycle[0], cycle[0], cycle[0]);
      } else {
        var chain := cycle + [cycle[0]];
        forall k | 0 <= k < |chain| - 1 ensures WaitsFor(f, chain[k], chain[k + 1]) {
          if k < n - 1 {
            assert WaitsFor(f, cycle[k], cycle[k + 1]);
          }
        }
        WaitsAscend(f, cycle[n - 1], cycle[0], cycle[1]);
        ChainAscends(f, chain, 0, n - 1);
      }
    }
  }

  /** In no reachable state do committers wait for one another in a cycle. */
  lemma NoWaitingCycle(store: map<RefId, Value>, run: seq<FineLabel>, valid: Validator, cycle: seq<TxId>)
    ensures !WaitingCycle(FineExec(FineInit(store), run, valid), cycle)
  {
    FineRefines(store, run, valid);
    NoCycle(FineExec(FineInit(store), run, valid), cycle);
  }

  ghost function Above(f: Fine, t: TxId): set<RefId> {
    if t in f.phases && f.phases[t].Locking? && Missing(f.phases[t].txn, f.phases[t].held) != {}
    then set q | q in f.mem && Wanted(f, t) <= q
    else {}
  }

  /** While some transaction is committing, some committing transaction can take a step. */
  lemma {:induction false} CommitterCanStep(f: Fine, t: TxId, valid: Validator) returns (a: FineLabel)
    requires FineOk(f) && t in f.phases && !f.phases[t].InBody?
    ensures !a.FBegin? && !a.FBody? && FineNext(f, a, valid) != f
    decreases Above(f, t)
  {
    hide LogOf, Decide;
    var p := f.phases[t];
    assert PhaseOk(f, t, p);
    if p.Locking? {
      if Missing(p.txn, p.held) == {} {
        a := FDecide(t);
        assert LogOf(p.txn.trace).Keys <= p.held by {
          forall r | r in LogOf(p.txn.trace) ensures r in p.held {
            assert r !in Missing(p.txn, p.held);
          }
        }
        assert FineNext(f, a, valid).phases[t] != p;
      } else {
        var r := Wanted(f, t);
        assert IsLeast(r, Missing(p.txn, p.held)) && r in f.mem;
        if r in f.locks {
          var u := f.locks[r];
          assert WaitsFor(f, t, u) && r in f.phases[u].Held();
          if Above(f, u) != {} {
            assert PhaseOk(f, u, f.phases[u]);
            assert r < Wanted(f, u);
          }
          assert r in Above(f, t) && r !in Above(f, u);
          a := CommitterCanStep(f, u, valid);
        } else {
          a := FLock(t);
          assert r !in p.held;
          assert FineNext(f, a, valid).locks != f.locks;
        }
      }
    } else if p.Todo() != map[] {
      var r :| r in p.Todo();
      a := FAssign(t, r);
      assert r !in FineNext(f, a, valid).phases[t].Todo();
    } else if p.Held() == {} {
      a := FRelease(t, 0);
      assert FineNext(f, a, valid).phases[t].InBody?;
    } else {
      var r :| r in p.Held();
      a := FRelease(t, r);
      assert r !in FineNext(f, a, valid).phases[t].Held();
    }
  }
}
