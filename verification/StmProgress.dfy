/**
  When a transaction commits, tries again, gives up or raises
  (src/basilisp/lang/stm.py:210-303).
*/
module StmProgress {
  import opened Prelude
  import opened StmLog
  import opened StmRuns

  // ------------------------------------------------------------------
  // The end of one attempt

  /** The Ref was read, is not merely commuted, and has been committed to since. */
  predicate Stale(s: Slot, cell: Cell) {
    && s.read.Some? && s.read.value.version != cell.version
    && (s.write.Some? || s.commutes == [] || s.ensured)
  }

  /** A Ref is assigned what was written, else what its commutes make of the committed value. */
  function Outcome(s: Slot, cell: Cell): Option<Value> {
    if s.write.Some? then s.write else Fold(s.commutes, cell.value)
  }

  predicate Assigned(s: Slot) { s.write.Some? || s.commutes != [] }

  /** Nothing but a raising commute or a refusing validator stands in the way of some new values. */
  ghost predicate Assignable<K>(l: Log<K>, mem: map<K, Cell>, valid: (K, Value) -> bool)
    requires l.Keys <= mem.Keys
  {
    forall r :: r in l && Assigned(l[r]) ==> Outcome(l[r], mem[r]).Some? && valid(r, Outcome(l[r], mem[r]).value)
  }

  /** The commit of a log finds a conflict, raises or publishes; each exactly when it should. */
  lemma DecideExactly<K>(l: Log<K>, mem: map<K, Cell>, valid: (K, Value) -> bool)
    requires l.Keys <= mem.Keys
    ensures match Decide(l, mem, valid)
            case Conflict(refs) => refs != {} && forall r :: r in refs <==> r in l && Stale(l[r], mem[r])
            case Raise => (forall r :: r in l ==> !Stale(l[r], mem[r])) && !Assignable(l, mem, valid)
            case Publish(changes) =>
              && (forall r :: r in l ==> !Stale(l[r], mem[r])) && Assignable(l, mem, valid)
              && (forall r :: r in changes <==> r in l && Assigned(l[r]))
              && (forall r :: r in changes ==> Some(changes[r]) == Outcome(l[r], mem[r]))
  {
    forall r | r in l
      ensures r in Conflicts(l, mem) <==> Stale(l[r], mem[r])
      ensures l[r].Touched() <==> Assigned(l[r])
      ensures Assigned(l[r]) ==> l[r].NewValue(mem[r]) == Outcome(l[r], mem[r])
    {
    }
    hide Slot.Conflict, Slot.Protected, Slot.NewValue, Slot.Touched, Stale, Outcome, Assigned;
    if Conflicts(l, mem) == {} {
      assert forall r :: r in l ==> r !in Conflicts(l, mem);
      if Assignable(l, mem, valid) {
        assert AllDefined(l, mem);
        var changes := NewValues(l, mem);
        assert forall r :: r in changes ==> valid(r, changes[r]);
      } else {
        var r :| r in l && Assigned(l[r]) && !(Outcome(l[r], mem[r]).Some? && valid(r, Outcome(l[r], mem[r]).value));
        if AllDefined(l, mem) {
          assert r in NewValues(l, mem).Keys;
        }
      }
    }
  }

  predicate AttemptsLeft(txn: Txn) { txn.limit.None? || txn.attempts < txn.limit.value }

  /** The transaction is about to commit with `v`. */
  predicate Returning(s: State, t: TxId, v: Value) {
    && t in s.txns && s.txns[t].Running? && LogOf(s.txns[t].txn.trace).Keys <= s.mem.Keys
    && s.txns[t].txn.body(Seen(s.txns[t].txn.trace)) == Return(v)
  }

  ghost predicate SomeStale(s: State, txn: Txn) {
    exists r :: r in LogOf(txn.trace) && r in s.mem && Stale(LogOf(txn.trace)[r], s.mem[r])
  }

  /**
    A conflict starts the body over with an empty log while attempts are left,
    and otherwise gives up; either way no Ref changes. Without one the
    transaction is done, or raises, and only then.
  */
  lemma AttemptEnds(s: State, t: TxId, v: Value, valid: Validator)
    requires Returning(s, t, v)
    ensures var (txn, s1) := (s.txns[t].txn, Next(s, Step(t), valid));
      && (SomeStale(s, txn) && AttemptsLeft(txn) ==>
        s1 == s.(txns := s.txns[t := Running(Txn(txn.body, txn.limit, [], txn.attempts + 1, txn.start, |s.history|))]))
      && (SomeStale(s, txn) && !AttemptsLeft(txn) ==>
        s1 == s.(txns := s.txns[t := Conflicted(txn.attempts, txn.start)]))
      && (!SomeStale(s, txn) && !Assignable(LogOf(txn.trace), s.mem, valid) ==>
        s1 == s.(txns := s.txns[t := Raised]))
      && (!SomeStale(s, txn) && Assignable(LogOf(txn.trace), s.mem, valid) ==>
        && s1.txns == s.txns[t := Done(v)]
        && |s1.history| == |s.history| + 1 && s1.history[..|s.history|] == s.history
        && s1.history[|s.history|].who == t && s1.history[|s.history|].result == v
        && s1.mem.Keys == s.mem.Keys
        && forall r :: r in s.mem ==>
          s1.mem[r] == if r in LogOf(txn.trace) && Assigned(LogOf(txn.trace)[r])
                       then Cell(Outcome(LogOf(txn.trace)[r], s.mem[r]).value, s.mem[r].version + 1)
                       else s.mem[r])
  {
    var txn := s.txns[t].txn;
    DecideExactly(LogOf(txn.trace), s.mem, valid);
    hide Decide, LogOf, Stale, Assigned, Outcome;
  }

  /** The conflict of an attempt that is not the last leads to another with the same body, and to nothing else. */
  lemma ConflictRetries(s: State, t: TxId, v: Value, valid: Validator)
    requires Returning(s, t, v) && SomeStale(s, s.txns[t].txn) && AttemptsLeft(s.txns[t].txn)
    ensures var (txn, s1) := (s.txns[t].txn, Next(s, Step(t), valid));
      && s1.mem == s.mem && s1.history == s.history
      && s1.txns == s.txns[t := Running(Txn(txn.body, txn.limit, [], txn.attempts + 1, txn.start, |s.history|))]
  {
    AttemptEnds(s, t, v, valid);
    hide Next, SomeStale, Returning, AttemptsLeft, Assignable;
  }

  /** A body that raises ends its transaction, and nothing it staged is ever seen. */
  lemma RaisingBodyEnds(s: State, t: TxId, valid: Validator)
    requires t in s.txns && s.txns[t].Running? && LogOf(s.txns[t].txn.trace).Keys <= s.mem.Keys
    requires s.txns[t].txn.body(Seen(s.txns[t].txn.trace)) == Fail
    ensures var s1 := Next(s, Step(t), valid);
      s1.txns == s.txns[t := Raised] && s1.mem == s.mem && s1.history == s.history
  {
    hide LogOf, Seen;
  }

  // ------------------------------------------------------------------
  // Transactions are what they were begun as

  /** What the first call for `t` that is not refused asked for. */
  ghost function BegunAs(run: seq<Label>, t: TxId): Option<(Body, Option<nat>)>
    decreases |run|
  {
    if run == [] then None
    else
      var before := BegunAs(run[..|run| - 1], t);
      if before.Some? then before
      else
        match run[|run| - 1]
        case Begin(u, body, limit) => if u == t && limit != Some(0) then Some((body, limit)) else None
        case Step(_) => None
  }

  ghost predicate AsBegun(begun: Option<(Body, Option<nat>)>, st: Status) {
    begun.Some? &&
    match st
    case Running(txn) => txn.body == begun.value.0 && txn.limit == begun.value.1
    case Conflicted(n, _) => begun.value.1 == Some(n)
    case _ => true
  }

  ghost predicate AllAsBegun(run: seq<Label>, s: State) {
    && (forall t :: t in s.txns <==> BegunAs(run, t).Some?)
    && (forall t :: t in s.txns ==> AsBegun(BegunAs(run, t), s.txns[t]))
    && (forall i :: 0 <= i < |s.history| ==>
      var begun := BegunAs(run, s.history[i].who); begun.Some? && s.history[i].body == begun.value.0)
  }

  /**
    In every run, a transaction runs and commits the body it was begun with,
    and it gives up only if it was begun with a limit, after exactly that many
    attempts: without a limit it is never given up.
  */
  lemma {:induction false} GivesUpAtTheLimit(store: map<RefId, Value>, run: seq<Label>, valid: Validator)
    ensures AllAsBegun(run, Exec(Init(store), run, valid))
    decreases |run|
  {
    hide AllAsBegun, Next, Inv;
    if run == [] {
      NothingBegun(store);
    } else {
      var (init, a) := (run[..|run| - 1], run[|run| - 1]);
      GivesUpAtTheLimit(store, init, valid);
      ExecInv(store, init, valid);
      match a
      case Begin(t, body, limit) => BeginAsBegun(run, Exec(Init(store), init, valid), valid);
      case Step(t) => StepAllAsBegun(Init(store).mem, run, Exec(Init(store), init, valid), valid);
    }
  }

  lemma NothingBegun(store: map<RefId, Value>)
    ensures AllAsBegun([], Init(store))
  {
  }

  lemma BeginAsBegun(run: seq<Label>, s: State, valid: Validator)
    requires run != [] && run[|run| - 1].Begin? && AllAsBegun(run[..|run| - 1], s)
    ensures AllAsBegun(run, Next(s, run[|run| - 1], valid))
  {
  }

  lemma StepAllAsBegun(init: Mem, run: seq<Label>, s: State, valid: Validator)
    requires run != [] && run[|run| - 1].Step? && AllAsBegun(run[..|run| - 1], s) && Inv(init, s)
    ensures AllAsBegun(run, Next(s, run[|run| - 1], valid))
  {
    hide Inv, AsBegun;
    var (before, t) := (run[..|run| - 1], run[|run| - 1].t);
    assert forall u :: BegunAs(run, u) == BegunAs(before, u);
    if t in s.txns && s.txns[t].Running? {
      StepAsBegun(init, s, t, valid, BegunAs(before, t));
      var s1 := Next(s, Step(t), valid);
      hide Next;
      forall i | 0 <= i < |s1.history|
        ensures var begun := BegunAs(run, s1.history[i].who); begun.Some? && s1.history[i].body == begun.value.0
      {
        if i < |s.history| {
          assert s1.history[i] == s1.history[..|s.history|][i];
        }
      }
    }
  }

  /** A step of `t` leaves the other transactions and the earlier commits alone. */
  ghost predicate StepsAlone(s: State, s1: State, t: TxId, begun: Option<(Body, Option<nat>)>) {
    && s1.txns.Keys == s.txns.Keys && t in s1.txns && AsBegun(begun, s1.txns[t])
    && (forall u :: u in s.txns && u != t ==> s1.txns[u] == s.txns[u])
    && |s.history| <= |s1.history| <= |s.history| + 1 && s1.history[..|s.history|] == s.history
    && (|s1.history| > |s.history| ==>
      s1.history[|s.history|].who == t && s1.history[|s.history|].body == begun.value.0)
  }

  lemma StatusSteps(s: State, t: TxId, st: Status, begun: Option<(Body, Option<nat>)>)
    requires t in s.txns && AsBegun(begun, st)
    ensures StepsAlone(s, s.(txns := s.txns[t := st]), t, begun)
  {
  }

  lemma CommitSteps(s: State, t: TxId, txn: Txn, v: Value, changes: map<RefId, Value>,
      begun: Option<(Body, Option<nat>)>)
    requires t in s.txns && AsBegun(begun, Running(txn))
    ensures StepsAlone(s, Committed(s, t, txn, v, changes), t, begun)
  {
  }

  lemma StepAsBegun(init: Mem, s: State, t: TxId, valid: Validator, begun: Option<(Body, Option<nat>)>)
    requires Inv(init, s) && t in s.txns && s.txns[t].Running? && AsBegun(begun, s.txns[t])
    ensures StepsAlone(s, Next(s, Step(t), valid), t, begun)
  {
    var txn := s.txns[t].txn;
    assert StatusOk(init, s.history, s.txns[t]);
    assert s.(txns := s.txns[t := s.txns[t]]) == s;
    StatusSteps(s, t, s.txns[t], begun);
    RetriedAsBegun(init, s.history, txn, begun);
    hide Inv, StatusOk, Retried, StepsAlone, Moved, Decide;
    if LogOf(txn.trace).Keys <= s.mem.Keys {
      MovedAsBegun(s, t, valid, begun);
    }
  }

  lemma MovedAsBegun(s: State, t: TxId, valid: Validator, begun: Option<(Body, Option<nat>)>)
    requires t in s.txns && s.txns[t].Running? && AsBegun(begun, s.txns[t])
    requires LogOf(s.txns[t].txn.trace).Keys <= s.mem.Keys
    requires AsBegun(begun, Retried(s.txns[t].txn, |s.history|)) && StepsAlone(s, s, t, begun)
    ensures StepsAlone(s, Moved(s, t, s.txns[t].txn, valid), t, begun)
  {
    hide Decide, LogOf, Seen, Retried, Committed, StepsAlone, CellFor;
    var txn := s.txns[t].txn;
    match txn.body(Seen(txn.trace))
    case Fail => StatusSteps(s, t, Raised, begun);
    case Do(op) =>
      if op.ref in s.mem {
        StatusSteps(s, t, Running(Performed(txn, op, s.mem)), begun);
      }
    case Return(v) =>
      match Decide(LogOf(txn.trace), s.mem, valid)
      case Conflict(_) => StatusSteps(s, t, Retried(txn, |s.history|), begun);
      case Raise => StatusSteps(s, t, Raised, begun);
      case Publish(changes) => CommitSteps(s, t, txn, v, changes, begun);
  }

  lemma RetriedAsBegun(init: Mem, h: seq<Commit>, txn: Txn, begun: Option<(Body, Option<nat>)>)
    requires TxnOk(init, h, txn) && AsBegun(begun, Running(txn))
    ensures AsBegun(begun, Retried(txn, |h|))
  {
  }

  // ------------------------------------------------------------------
  // A transaction left alone finishes

  /** A call of the operation never raises in its update function. */
  ghost predicate Total(act: Act) {
    match act
    case Alter(f) => forall v :: f(v).Some?
    case Commute(f) => forall v :: f(v).Some?
    case _ => true
  }

  /**
    From what it has seen so far, the body returns after at most `n` more
    operations, none of which raises; `commuted` are the Refs it has commuted.
  */
  ghost predicate Ends(body: Body, refs: set<RefId>, commuted: set<RefId>, seen: seq<Option<Value>>, n: nat)
    decreases n
  {
    match body(seen)
    case Return(_) => true
    case Fail => false
    case Do(op) =>
      && n > 0 && op.ref in refs && Total(op.act)
      && (op.act.Alter? || op.act.RefSet? ==> op.ref !in commuted)
      && var commuted1 := if op.act.Commute? then commuted + {op.ref} else commuted;
      forall v :: Ends(body, refs, commuted1, seen + [Some(v)], n - 1)
  }

  ghost function CommutedIn(l: Log<RefId>): set<RefId> { set r | r in l && l[r].commutes != [] }

  /** No commute of the log can raise when it is replayed. */
  ghost predicate TotalLog(l: Log<RefId>) {
    forall r, f, v :: r in l && f in l[r].commutes ==> f(v).Some?
  }

  lemma {:induction false} TotalFold(fs: seq<Fn>, v: Value)
    requires forall f, w :: f in fs ==> f(w).Some?
    ensures Fold(fs, v).Some?
    decreases |fs|
  {
    if fs != [] {
      TotalFold(fs[..|fs| - 1], v);
    }
  }

  /** The transaction returns after at most `n` more operations, and nothing in it raises. */
  ghost predicate WillEnd(s: State, t: TxId, n: nat) {
    && t in s.txns && s.txns[t].Running?
    && var txn := s.txns[t].txn;
      Ends(txn.body, s.mem.Keys, CommutedIn(LogOf(txn.trace)), Seen(txn.trace), n) && TotalLog(LogOf(txn.trace))
  }

  /** `k` steps of one transaction, and of no other. */
  function Alone(s: State, t: TxId, k: nat, valid: Validator): State
    decreases k
  {
    if k == 0 then s else Alone(Next(s, Step(t), valid), t, k - 1, valid)
  }

  lemma AppliedTotal(l: Log<RefId>, op: Op<RefId>, cell: Cell)
    requires TotalLog(l) && Total(op.act) && (op.act.Alter? || op.act.RefSet? ==> op.ref !in CommutedIn(l))
    ensures var (l1, out) := ApplyOp(l, op, cell);
      && out.Some? && TotalLog(l1)
      && CommutedIn(l1) == if op.act.Commute? then CommutedIn(l) + {op.ref} else CommutedIn(l)
  {
  }

  lemma TraceSnoc(trace: seq<Entry<RefId>>, e: Entry<RefId>)
    ensures LogOf(trace + [e]) == ApplyOp(LogOf(trace), e.op, e.cell).0
    ensures Seen(trace + [e]) == Seen(trace) + [e.seen]
  {
    assert (trace + [e])[..|trace|] == trace;
  }

  /** An operation reads the committed cell unless the attempt has read the Ref before, and is appended to the trace. */
  lemma OperationDoes(s: State, t: TxId, op: Op<RefId>, valid: Validator)
    requires t in s.txns && s.txns[t].Running? && s.txns[t].txn.body(Seen(s.txns[t].txn.trace)) == Do(op)
    requires LogOf(s.txns[t].txn.trace).Keys <= s.mem.Keys && op.ref in s.mem
    ensures var (txn, s1) := (s.txns[t].txn, Next(s, Step(t), valid));
      var l := LogOf(txn.trace);
      var cell := if op.ref in l && l[op.ref].read.Some? then l[op.ref].read.value else s.mem[op.ref];
      && s1.mem == s.mem && s1.history == s.history && s1.txns[t].Running?
      && s1.txns[t].txn == txn.(trace := s1.txns[t].txn.trace)
      && LogOf(s1.txns[t].txn.trace) == ApplyOp(l, op, cell).0
      && Seen(s1.txns[t].txn.trace) == Seen(txn.trace) + [ApplyOp(l, op, cell).1]
  {
    var txn := s.txns[t].txn;
    var l := LogOf(txn.trace);
    var cell := CellFor(l, op.ref, s.mem);
    TraceSnoc(txn.trace, Entry(op, cell, ApplyOp(l, op, cell).1));
    hide LogOf, ApplyOp;
  }

  /** One operation on the way. */
  lemma OperationStep(init: Mem, s: State, t: TxId, op: Op<RefId>, n: nat, valid: Validator)
    requires Inv(init, s) && WillEnd(s, t, n) && s.txns[t].txn.body(Seen(s.txns[t].txn.trace)) == Do(op)
    ensures var (txn, s1) := (s.txns[t].txn, Next(s, Step(t), valid));
      && n > 0 && Inv(init, s1) && WillEnd(s1, t, n - 1) && s1.mem == s.mem && s1.history == s.history
      && s1.txns[t].txn == txn.(trace := s1.txns[t].txn.trace)
  {
    var txn := s.txns[t].txn;
    var l := LogOf(txn.trace);
    assert StatusOk(init, s.history, s.txns[t]);
    NextKeepsInv(init, s, Step(t), valid);
    AppliedTotal(l, op, if op.ref in l && l[op.ref].read.Some? then l[op.ref].read.value else s.mem[op.ref]);
    OperationDoes(s, t, op, valid);
    hide Inv, TxnOk, TotalLog, ApplyOp, CommutedIn, Total, Next, LogOf;
  }

  ghost predicate AllValid(valid: Validator) { forall r, v :: valid(r, v) }

  /** Nothing in the way of a commit but a conflict. */
  lemma TotalAssignable(s: State, l: Log<RefId>, valid: Validator)
    requires TotalLog(l) && AllValid(valid) && l.Keys <= s.mem.Keys
    ensures Assignable(l, s.mem, valid)
  {
    forall r | r in l && Assigned(l[r]) ensures Outcome(l[r], s.mem[r]).Some? {
      TotalFold(l[r].commutes, s.mem[r].value);
    }
  }

  /** An attempt during which nobody committed is not in conflict. */
  lemma NobodyCommitted(init: Mem, s: State, txn: Txn)
    requires Inv(init, s) && TxnOk(init, s.history, txn) && txn.began == |s.history|
    ensures !SomeStale(s, txn)
  {
    hide MemAt, HistoryOk, StatusOk, LogOf, Follows, Faithful, On;
    var l := LogOf(txn.trace);
    forall r | r in l && r in s.mem && l[r].read.Some? ensures !Stale(l[r], s.mem[r]) {
      ReadNow(init, s.history, r, l[r].read.value);
    }
  }

  lemma ReadNow(init: Mem, h: seq<Commit>, r: RefId, cell: Cell)
    requires ReadAt(init, h, |h|, r, cell) && r in MemAt(init, h, |h|)
    ensures MemAt(init, h, |h|)[r] == cell
  {
  }

  /** The transaction is done after `k` steps, its commit the last one, and makes at most `most` attempts on the way. */
  ghost predicate DoneAfter(s: State, t: TxId, k: nat, most: nat, valid: Validator) {
    var s1 := Alone(s, t, k, valid);
    && t in s1.txns && s1.txns[t].Done?
    && |s1.history| == |s.history| + 1 && s1.history[|s.history|].who == t
    && forall j :: 0 <= j < k ==>
      var s2 := Alone(s, t, j, valid); t in s2.txns && s2.txns[t].Running? && s2.txns[t].txn.attempts <= most
  }

  lemma DoneLater(s: State, t: TxId, k: nat, most: nat, valid: Validator)
    requires t in s.txns && s.txns[t].Running? && s.txns[t].txn.attempts <= most
    requires Next(s, Step(t), valid).history == s.history && DoneAfter(Next(s, Step(t), valid), t, k, most, valid)
    ensures DoneAfter(s, t, k + 1, most, valid)
  {
    var s1 := Next(s, Step(t), valid);
    hide Next;
    forall j | 0 <= j < k + 1
      ensures var s2 := Alone(s, t, j, valid); t in s2.txns && s2.txns[t].Running? && s2.txns[t].txn.attempts <= most
    {
      if j > 0 {
        assert Alone(s, t, j, valid) == Alone(s1, t, j - 1, valid);
      }
    }
  }

  lemma DoneNow(init: Mem, s: State, t: TxId, v: Value, most: nat, valid: Validator)
    requires Inv(init, s) && Returning(s, t, v) && TotalLog(LogOf(s.txns[t].txn.trace)) && AllValid(valid)
    requires !SomeStale(s, s.txns[t].txn) && s.txns[t].txn.attempts <= most
    ensures DoneAfter(s, t, 1, most, valid)
  {
    hide Inv;
    AttemptEnds(s, t, v, valid);
    TotalAssignable(s, LogOf(s.txns[t].txn.trace), valid);
    assert Alone(s, t, 1, valid) == Alone(Next(s, Step(t), valid), t, 0, valid);
    hide Next, LogOf, SomeStale, Assignable;
  }

  /** An attempt that began after the last commit finishes. */
  lemma {:induction false} FreshAttemptFinishes(init: Mem, s: State, t: TxId, n: nat, valid: Validator)
      returns (k: nat)
    requires Inv(init, s) && AllValid(valid) && WillEnd(s, t, n) && s.txns[t].txn.began == |s.history|
    ensures k <= n + 1 && DoneAfter(s, t, k, s.txns[t].txn.attempts, valid)
    decreases n
  {
    var txn := s.txns[t].txn;
    assert StatusOk(init, s.history, s.txns[t]);
    hide Inv, DoneAfter, Next, TotalLog;
    match txn.body(Seen(txn.trace))
    case Do(op) =>
      OperationStep(init, s, t, op, n, valid);
      k := FreshAttemptFinishes(init, Next(s, Step(t), valid), t, n - 1, valid);
      DoneLater(s, t, k, txn.attempts, valid);
      k := k + 1;
    case Return(v) =>
      NobodyCommitted(init, s, txn);
      DoneNow(init, s, t, v, txn.attempts, valid);
      k := 1;
  }

  /** A transaction with an attempt left, or without a limit, finishes after at most one more attempt. */
  lemma {:induction false} AloneFinishes(init: Mem, s: State, t: TxId, n: nat, m: nat, valid: Validator)
      returns (k: nat)
    requires Inv(init, s) && AllValid(valid) && WillEnd(s, t, n) && AttemptsLeft(s.txns[t].txn)
    requires Ends(s.txns[t].txn.body, s.mem.Keys, {}, [], m)
    ensures k <= n + m + 2 && DoneAfter(s, t, k, s.txns[t].txn.attempts + 1, valid)
    decreases n
  {
    var txn := s.txns[t].txn;
    assert StatusOk(init, s.history, s.txns[t]);
    hide Inv, DoneAfter, Next, TotalLog, LogOf, TxnOk;
    match txn.body(Seen(txn.trace))
    case Do(op) =>
      OperationStep(init, s, t, op, n, valid);
      k := AloneFinishes(init, Next(s, Step(t), valid), t, n - 1, m, valid);
      DoneLater(s, t, k, txn.attempts + 1, valid);
      k := k + 1;
    case Return(v) =>
      if SomeStale(s, txn) {
        k := RetryFinishes(init, s, t, v, m, valid);
      } else {
        DoneNow(init, s, t, v, txn.attempts + 1, valid);
        k := 1;
      }
  }

  lemma RetryFinishes(init: Mem, s: State, t: TxId, v: Value, m: nat, valid: Validator) returns (k: nat)
    requires Inv(init, s) && AllValid(valid) && Returning(s, t, v)
    requires SomeStale(s, s.txns[t].txn) && AttemptsLeft(s.txns[t].txn)
    requires Ends(s.txns[t].txn.body, s.mem.Keys, {}, [], m)
    ensures k <= m + 2 && DoneAfter(s, t, k, s.txns[t].txn.attempts + 1, valid)
  {
    var most := s.txns[t].txn.attempts + 1;
    hide Inv, DoneAfter, Next, LogOf, SomeStale, Ends, Returning, Seen;
    var s1 := Next(s, Step(t), valid);
    NextKeepsInv(init, s, Step(t), valid);
    ConflictRetries(s, t, v, valid);
    NothingLogged(s1, t, m);
    k := FreshAttemptFinishes(init, s1, t, m, valid);
    DoneLater(s, t, k, most, valid);
    k := k + 1;
  }

  lemma NothingLogged(s: State, t: TxId, m: nat)
    requires t in s.txns && s.txns[t].Running? && s.txns[t].txn.trace == []
    requires Ends(s.txns[t].txn.body, s.mem.Keys, {}, [], m)
    ensures WillEnd(s, t, m)
  {
    var none: seq<Entry<RefId>> := [];
    assert Seen(none) == [] && CommutedIn(LogOf(none)) == {};
  }

  function Steps(t: TxId, k: nat): seq<Label> { seq(k, _ => Step(t)) }

  lemma {:induction false} ExecFirst(s: State, a: Label, more: seq<Label>, valid: Validator)
    ensures Exec(s, [a] + more, valid) == Exec(Next(s, a, valid), more, valid)
    decreases |more|
  {
    var run := [a] + more;
    if more == [] {
      assert run[..0] == [];
    } else {
      assert run[..|run| - 1] == [a] + more[..|more| - 1];
      ExecFirst(s, a, more[..|more| - 1], valid);
    }
  }

  lemma {:induction false} AloneIsRun(s: State, t: TxId, k: nat, valid: Validator)
    ensures Alone(s, t, k, valid) == Exec(s, Steps(t, k), valid)
    decreases k
  {
    if k > 0 {
      assert Steps(t, k) == [Step(t)] + Steps(t, k - 1);
      ExecFirst(s, Step(t), Steps(t, k - 1), valid);
      AloneIsRun(Next(s, Step(t), valid), t, k - 1, valid);
    }
  }

  /** The transaction is done once the run goes on with `k` steps of it, after at most one attempt more. */
  ghost predicate FinishesIn(s: State, t: TxId, k: nat, valid: Validator)
    requires t in s.txns && s.txns[t].Running?
  {
    var s1 := Exec(s, Steps(t, k), valid);
    && t in s1.txns && s1.txns[t].Done?
    && |s1.history| == |s.history| + 1 && s1.history[|s.history|].who == t
    && forall j :: 0 <= j < k ==>
      var s2 := Exec(s, Steps(t, j), valid);
      t in s2.txns && s2.txns[t].Running? && s2.txns[t].txn.attempts <= s.txns[t].txn.attempts + 1
  }

  /**
    Whatever happened before: a transaction without a limit, or with an attempt
    left, that the others leave alone commits after at most one more attempt,
    provided its body returns and no update function or validator refuses.
  */
  lemma LeftAloneItCommits(store: map<RefId, Value>, run: seq<Label>, t: TxId, n: nat, m: nat, valid: Validator)
    requires AllValid(valid) && WillEnd(Exec(Init(store), run, valid), t, n)
    requires AttemptsLeft(Exec(Init(store), run, valid).txns[t].txn)
    requires var s := Exec(Init(store), run, valid); Ends(s.txns[t].txn.body, s.mem.Keys, {}, [], m)
    ensures exists k: nat :: k <= n + m + 2 && FinishesIn(Exec(Init(store), run, valid), t, k, valid)
  {
    ExecInv(store, run, valid);
    var s := Exec(Init(store), run, valid);
    var k := AloneFinishes(Init(store).mem, s, t, n, m, valid);
    hide Inv, Init, Ends;
    forall j: nat | j <= k ensures Exec(s, Steps(t, j), valid) == Alone(s, t, j, valid) {
      AloneIsRun(s, t, j, valid);
    }
    assert FinishesIn(s, t, k, valid);
  }
}
