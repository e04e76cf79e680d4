/**
  `Ref` and `_Transaction` as the objects of src/basilisp/lang/stm.py:45-257.

  Every method is proved to do to the five dictionaries what `StmLog.ApplyAct`
  says, and `Commit` to do to the Refs what `StmLog.Decide` says; the laws of
  whole runs are proved of those functions.
*/
module StmTransaction {
  import opened Prelude
  import opened StmLog

  class Ref {
    var state: Value
    var version: nat
    const validator: Option<Value -> bool>

    constructor (state: Value, validator: Option<Value -> bool>)
      requires validator.Some? ==> validator.value(state)
      ensures Cell() == StmLog.Cell(state, 0) && this.validator == validator
    {
      this.state := state;
      this.version := 0;
      this.validator := validator;
    }

    function Cell(): StmLog.Cell
      reads this
    {
      StmLog.Cell(state, version)
    }

    predicate Accepts(v: Value) { validator.Some? ==> validator.value(v) }

    method ReadCommitted() returns (cell: StmLog.Cell)
      ensures cell == Cell()
    {
      cell := StmLog.Cell(state, version);
    }
  }

  /** `Ref.__init__`; `None` stands for a validator that refuses the initial value. */
  method MakeRef(state: Value, validator: Option<Value -> bool>) returns (r: Option<Ref>)
    ensures r.None? <==> validator.Some? && !validator.value(state)
    ensures r.Some? ==> fresh(r.value) && r.value.Cell() == StmLog.Cell(state, 0) && r.value.validator == validator
  {
    if validator.Some? && !validator.value(state) {
      return None;
    }
    var made := new Ref(state, validator);
    r := Some(made);
  }

  /** What the Refs `refs` hold. */
  function Memory(refs: set<Ref>): map<Ref, StmLog.Cell>
    reads refs
  {
    map r | r in refs :: r.Cell()
  }

  predicate Accepting(r: Ref, v: Value) { r.Accepts(v) }

  /** The five dictionaries of a transaction. */
  datatype Dicts<K(==)> = Dicts(
    readCells: map<K, StmLog.Cell>,
    writes: map<K, Value>,
    commutes: map<K, seq<Fn>>,
    commuted: map<K, Value>,
    ensured: set<K>)
  {
    function Footprint(): set<K> { readCells.Keys + writes.Keys + commutes.Keys }

    /** Every written, commuted or ensured Ref has a recorded read. */
    ghost predicate Ok() {
      && (forall r :: r in commutes ==> commutes[r] != [])
      && commuted.Keys <= commutes.Keys
      && writes.Keys + commutes.Keys + ensured <= readCells.Keys
    }

    /** The entries for one Ref. */
    function SlotAt(r: K): Slot {
      Slot(
        if r in readCells then Some(readCells[r]) else None,
        if r in writes then Some(writes[r]) else None,
        if r in commutes then commutes[r] else [],
        if r in commuted then Some(commuted[r]) else None,
        r in ensured)
    }

    function Log(): StmLog.Log<K> { map r | r in Footprint() :: SlotAt(r) }

    /** At most the entries of `ref` were assigned since `d`. */
    ghost predicate SameExcept(d: Dicts<K>, ref: K) {
      && (readCells == d.readCells || (ref in readCells && readCells == d.readCells[ref := readCells[ref]]))
      && (writes == d.writes || (ref in writes && writes == d.writes[ref := writes[ref]]))
      && (commutes == d.commutes || (ref in commutes && commutes == d.commutes[ref := commutes[ref]]))
      && (commuted == d.commuted || (ref in commuted && commuted == d.commuted[ref := commuted[ref]]))
      && (ensured == d.ensured || ensured == d.ensured + {ref})
    }
  }

  /** Dictionaries that changed for one Ref only, as an operation changes its entries, hold that operation's log. */
  lemma OneOperation<K>(d: Dicts<K>, d1: Dicts<K>, op: Op<K>, cell: StmLog.Cell, out: Option<Value>)
    requires d.Ok() && d1.Ok() && d1.SameExcept(d, op.ref) && op.ref in d1.Footprint()
    requires (d1.SlotAt(op.ref), out) == ApplyAct(d.SlotAt(op.ref), op.act, cell)
    ensures (d1.Log(), out) == ApplyOp(d.Log(), op, cell)
  {
    hide ApplyAct, Dicts.SlotAt, Dicts.SameExcept, Dicts.Ok;
    LogSlot(d, op.ref);
    SameSlots(d, d1, op.ref);
    hide SlotOf;
    assert d1.Log() == d.Log()[op.ref := d1.SlotAt(op.ref)];
  }

  lemma LogSlot<K>(d: Dicts<K>, r: K)
    requires d.Ok()
    ensures SlotOf(d.Log(), r) == d.SlotAt(r)
  {
  }

  lemma SameSlots<K>(d: Dicts<K>, d1: Dicts<K>, ref: K)
    requires d1.SameExcept(d, ref)
    ensures d1.Footprint() + {ref} == d.Footprint() + {ref}
    ensures forall r :: r in d.Footprint() && r != ref ==> d1.SlotAt(r) == d.SlotAt(r)
  {
  }

  class Transaction {
    var readCells: map<Ref, StmLog.Cell>
    var writes: map<Ref, Value>
    var commutes: map<Ref, seq<Fn>>
    var commutedValues: map<Ref, Value>
    var ensured: set<Ref>
    var conflicts: set<Ref>

    constructor ()
      ensures Now().Ok() && Now().Log() == map[]
    {
      readCells, writes, commutes, commutedValues, ensured, conflicts := map[], map[], map[], map[], {}, {};
    }

    function Now(): Dicts<Ref>
      reads this
    {
      Dicts(readCells, writes, commutes, commutedValues, ensured)
    }

    function Footprint(): set<Ref>
      reads this
    {
      Now().Footprint()
    }

    method Read(ref: Ref) returns (v: Value)
      requires Now().Ok()
      modifies this`readCells
      ensures Now().Ok()
      ensures readCells == if ref in old(readCells) then old(readCells) else old(readCells)[ref := ref.Cell()]
      ensures (Now().SlotAt(ref), v) == ReadSlot(old(Now().SlotAt(ref)), ref.Cell())
      ensures (Now().Log(), Some(v)) == ApplyOp(old(Now().Log()), Op(ref, Act.Read), ref.Cell())
    {
      hide ApplyOp, Fold;
      ghost var before := Now();
      v := Lookup(ref);
      OneOperation(before, Now(), Op(ref, Act.Read), ref.Cell(), Some(v));
    }

    method Lookup(ref: Ref) returns (v: Value)
      requires Now().Ok()
      modifies this`readCells
      ensures Now().Ok()
      ensures readCells == if ref in old(readCells) then old(readCells) else old(readCells)[ref := ref.Cell()]
      ensures (Now().SlotAt(ref), v) == ReadSlot(old(Now().SlotAt(ref)), ref.Cell())
    {
      if ref in writes {
        return writes[ref];
      }
      if ref in commutedValues {
        return commutedValues[ref];
      }
      if ref !in readCells {
        var cell := ref.ReadCommitted();
        readCells := readCells[ref := cell];
      }
      v := readCells[ref].value;
    }

    method Alter(ref: Ref, f: Fn) returns (out: Option<Value>)
      requires Now().Ok()
      modifies this`readCells, this`writes
      ensures Now().Ok()
      ensures (Now().Log(), out) == ApplyOp(old(Now().Log()), Op(ref, Act.Alter(f)), ref.Cell())
    {
      hide ApplyOp, Fold;
      ghost var before := Now();
      if ref in commutes {
        OneOperation(before, Now(), Op(ref, Act.Alter(f)), ref.Cell(), None);
        return None;
      }
      var v := Lookup(ref);
      out := f(v);
      if out.Some? {
        writes := writes[ref := out.value];
      }
      OneOperation(before, Now(), Op(ref, Act.Alter(f)), ref.Cell(), out);
    }

    method RefSet(ref: Ref, value: Value) returns (out: Option<Value>)
      requires Now().Ok()
      modifies this`readCells, this`writes
      ensures Now().Ok()
      ensures (Now().Log(), out) == ApplyOp(old(Now().Log()), Op(ref, Act.RefSet(value)), ref.Cell())
    {
      hide ApplyOp, Fold;
      ghost var before := Now();
      if ref in commutes {
        OneOperation(before, Now(), Op(ref, Act.RefSet(value)), ref.Cell(), None);
        return None;
      }
      var _ := Lookup(ref);
      writes := writes[ref := value];
      out := Some(value);
      OneOperation(before, Now(), Op(ref, Act.RefSet(value)), ref.Cell(), out);
    }

    method Commute(ref: Ref, f: Fn) returns (out: Option<Value>)
      requires Now().Ok()
      modifies this`readCells, this`writes, this`commutes, this`commutedValues
      ensures Now().Ok()
      ensures (Now().Log(), out) == ApplyOp(old(Now().Log()), Op(ref, Act.Commute(f)), ref.Cell())
    {
      hide ApplyOp, Fold;
      ghost var before := Now();
      var v: Value;
      if ref in writes {
        v := writes[ref];
      } else if ref in commutedValues {
        v := commutedValues[ref];
      } else if ref in readCells {
        v := readCells[ref].value;
      } else {
        var cell := ref.ReadCommitted();
        v := cell.value;
        readCells := readCells[ref := cell];
      }
      assert (Now().SlotAt(ref), v) == ReadSlot(before.SlotAt(ref), ref.Cell());
      out := f(v);
      if out.Some? {
        Stage(ref, f, out.value);
      }
      OneOperation(before, Now(), Op(ref, Act.Commute(f)), ref.Cell(), out);
    }

    /** Records a commute of a Ref that has been read, and its value inside the transaction. */
    method Stage(ref: Ref, f: Fn, result: Value)
      requires Now().Ok() && ref in readCells
      modifies this`writes, this`commutes, this`commutedValues
      ensures Now().Ok() && Now().SameExcept(old(Now()), ref)
      ensures var s := old(Now().SlotAt(ref));
        Now().SlotAt(ref) == if s.write.Some? then s.(commutes := s.commutes + [f], write := Some(result))
                             else s.(commutes := s.commutes + [f], commuted := Some(result))
    {
      commutes := commutes[ref := (if ref in commutes then commutes[ref] else []) + [f]];
      if ref in writes {
        writes := writes[ref := result];
      } else {
        commutedValues := commutedValues[ref := result];
      }
    }

    method Ensure(ref: Ref) returns (v: Value)
      requires Now().Ok()
      modifies this`readCells, this`ensured
      ensures Now().Ok()
      ensures (Now().Log(), Some(v)) == ApplyOp(old(Now().Log()), Op(ref, Act.Ensure), ref.Cell())
    {
      hide ApplyOp, Fold;
      ghost var before := Now();
      v := Lookup(ref);
      ensured := ensured + {ref};
      OneOperation(before, Now(), Op(ref, Act.Ensure), ref.Cell(), Some(v));
    }

    /** The left fold of the staged commutes of a Ref over its committed value. */
    method Replayed(fs: seq<Fn>, start: Value) returns (out: Option<Value>)
      ensures out == Fold(fs, start)
    {
      out := Some(start);
      var i := 0;
      while i < |fs| && out.Some?
        invariant 0 <= i <= |fs|
        invariant out == Fold(fs[..i], start)
      {
        FoldSnoc(fs[..i], fs[i], start);
        assert fs[..i + 1] == fs[..i] + [fs[i]];
        out := fs[i](out.value);
        i := i + 1;
      }
      if out.None? {
        FoldStaysNone(fs, i, start);
      } else {
        assert fs[..i] == fs;
      }
    }

    static lemma {:induction false} FoldStaysNone(fs: seq<Fn>, i: nat, v: Value)
      requires i <= |fs| && Fold(fs[..i], v).None?
      ensures Fold(fs, v).None?
      decreases |fs| - i
    {
      if i == |fs| {
        assert fs[..i] == fs;
      } else {
        FoldSnoc(fs[..i], fs[i], v);
        assert fs[..i + 1] == fs[..i] + [fs[i]];
        FoldStaysNone(fs, i + 1, v);
      }
    }

    /** The Refs whose version differs from the one that was read, among the protected ones. */
    method Conflicting() returns (found: set<Ref>)
      requires Now().Ok()
      ensures found == Conflicts(Now().Log(), Memory(Footprint()))
    {
      var pure := commutes.Keys - writes.Keys;
      found := {};
      var rest := readCells.Keys;
      while rest != {}
        invariant rest <= readCells.Keys
        invariant found == set r | r in readCells.Keys - rest && Now().SlotAt(r).Conflict(r.Cell())
        decreases rest
      {
        var r :| r in rest;
        if (r !in pure || r in ensured) && r.version != readCells[r].version {
          found := found + {r};
        }
        rest := rest - {r};
      }
    }

    /** The new value of every Ref to assign; `None` if a replayed commute raises. */
    method Changes() returns (changes: Option<map<Ref, Value>>)
      requires Now().Ok()
      ensures ChangesAre(Now(), Memory(Footprint()), changes)
    {
      var all := writes;
      var rest := commutes.Keys - writes.Keys;
      while rest != {}
        invariant rest <= commutes.Keys - writes.Keys
        invariant all.Keys == writes.Keys + (commutes.Keys - rest)
        invariant forall r | r in all :: Some(all[r]) == Now().SlotAt(r).NewValue(r.Cell())
        decreases rest
      {
        var r :| r in rest;
        var v := Replayed(commutes[r], r.state);
        if v.None? {
          assert Now().SlotAt(r).Touched() && Now().SlotAt(r).NewValue(r.Cell()).None?;
          return None;
        }
        all := all[r := v.value];
        rest := rest - {r};
      }
      changes := Some(all);
      forall r | r in Footprint() && Now().SlotAt(r).Touched() ensures Now().SlotAt(r).NewValue(r.Cell()).Some? {
        assert r in all;
      }
    }

    method AllAccepted(changes: map<Ref, Value>) returns (ok: bool)
      ensures ok <==> forall r | r in changes :: Accepting(r, changes[r])
    {
      var rest := changes.Keys;
      ok := true;
      while rest != {}
        invariant rest <= changes.Keys
        invariant forall r | r in changes.Keys - rest :: r.Accepts(changes[r])
        decreases rest
      {
        var r :| r in rest;
        if !r.Accepts(changes[r]) {
          return false;
        }
        rest := rest - {r};
      }
    }

    method Assign(changes: map<Ref, Value>, ghost refs: set<Ref>)
      requires changes.Keys <= refs
      modifies changes.Keys
      ensures Memory(refs) == Published(old(Memory(refs)), changes)
    {
      var rest := changes.Keys;
      while rest != {}
        invariant rest <= changes.Keys
        invariant forall r | r in rest :: r.Cell() == old(r.Cell())
        invariant forall r | r in changes.Keys - rest :: r.Cell() == StmLog.Cell(changes[r], old(r.version) + 1)
        decreases rest
      {
        var r :| r in rest;
        r.state := changes[r];
        r.version := r.version + 1;
        rest := rest - {r};
      }
    }

    /** Without conflicts: the changes, unless a replayed commute raises or a validator refuses. */
    method Computing() returns (decision: Decision<Ref>)
      requires Now().Ok() && Conflicts(Now().Log(), Memory(Footprint())) == {}
      ensures decision == Decide(Now().Log(), Memory(Footprint()), Accepting)
    {
      hide Decide, Conflicts, Dicts.Log, Dicts.Ok, ChangesAre, Accepting;
      var changes := Changes();
      ChangesDecide(Now(), Memory(Footprint()), changes);
      if changes.None? {
        return Raise;
      }
      var ok := AllAccepted(changes.value);
      decision := if ok then Publish(changes.value) else Raise;
    }

    /** The part of `commit` that changes no Ref. */
    method Deciding() returns (decision: Decision<Ref>)
      requires Now().Ok()
      ensures decision == Decide(Now().Log(), Memory(Footprint()), Accepting)
    {
      hide Decide, Conflicts, Dicts.Log;
      var found := Conflicting();
      ConflictDecides(Now(), Memory(Footprint()));
      if found != {} {
        return Conflict(found);
      }
      decision := Computing();
    }

    /** `commit`: decides as `Decide` does and leaves the Refs as `Published` says, all of them or none. */
    method Commit() returns (decision: Decision<Ref>)
      requires Now().Ok()
      modifies this`conflicts, Footprint()
      ensures Now() == old(Now())
      ensures decision == Decide(Now().Log(), old(Memory(Footprint())), Accepting)
      ensures Memory(Footprint())
           == if decision.Publish? then Published(old(Memory(Footprint())), decision.changes)
              else old(Memory(Footprint()))
      ensures decision.Conflict? ==> conflicts == decision.refs
    {
      decision := Deciding();
      hide Conflicts, Fold, Slot.NewValue, Published;
      if decision.Conflict? {
        conflicts := decision.refs;
      } else if decision.Publish? {
        Assign(decision.changes, Footprint());
      }
    }
  }

  lemma ConflictDecides(d: Dicts<Ref>, mem: map<Ref, StmLog.Cell>)
    requires mem.Keys == d.Footprint()
    ensures Conflicts(d.Log(), mem) != {} ==> Decide(d.Log(), mem, Accepting) == Conflict(Conflicts(d.Log(), mem))
  {
  }

  /** The new value of every touched Ref, unless one has none. */
  ghost predicate ChangesAre(d: Dicts<Ref>, mem: map<Ref, StmLog.Cell>, changes: Option<map<Ref, Value>>)
    requires mem.Keys == d.Footprint() && d.Ok()
  {
    match changes
    case None => exists r | r in d.Footprint() :: d.SlotAt(r).Touched() && d.SlotAt(r).NewValue(mem[r]).None?
    case Some(all) =>
      && all.Keys == d.writes.Keys + d.commutes.Keys
      && forall r | r in all :: Some(all[r]) == d.SlotAt(r).NewValue(mem[r])
  }

  lemma ChangesDecide(d: Dicts<Ref>, mem: map<Ref, StmLog.Cell>, changes: Option<map<Ref, Value>>)
    requires mem.Keys == d.Footprint() && Conflicts(d.Log(), mem) == {} && d.Ok() && ChangesAre(d, mem, changes)
    ensures Decide(d.Log(), mem, Accepting)
         == if changes.Some? && forall r | r in changes.value :: Accepting(r, changes.value[r])
            then Publish(changes.value) else Raise
  {
    if changes.Some? {
      TouchedDecides(d, mem, changes.value);
    }
  }

  lemma TouchedDecides(d: Dicts<Ref>, mem: map<Ref, StmLog.Cell>, changes: map<Ref, Value>)
    requires mem.Keys == d.Footprint() && Conflicts(d.Log(), mem) == {} && d.Ok() && ChangesAre(d, mem, Some(changes))
    ensures Decide(d.Log(), mem, Accepting)
         == if forall r | r in changes :: Accepting(r, changes[r]) then Publish(changes) else Raise
  {
    hide Fold, Slot.NewValue, Decide, Conflicts;
    var log := d.Log();
    forall r | r in log ensures log[r].Touched() <==> r in changes {
      assert log[r] == d.SlotAt(r);
    }
    DecideWithout(log, mem, changes);
  }

  /** Without conflicts, and with the new value of every touched Ref given, the decision is up to the validators. */
  lemma DecideWithout(log: StmLog.Log<Ref>, mem: map<Ref, StmLog.Cell>, changes: map<Ref, Value>)
    requires log.Keys == mem.Keys && Conflicts(log, mem) == {} && changes.Keys <= log.Keys
    requires forall r :: r in log ==> (log[r].Touched() <==> r in changes)
    requires forall r | r in changes :: log[r].NewValue(mem[r]) == Some(changes[r])
    ensures Decide(log, mem, Accepting)
         == if forall r | r in changes :: Accepting(r, changes[r]) then Publish(changes) else Raise
  {
    hide Fold, Slot.NewValue;
    assert AllDefined(log, mem);
    assert changes == NewValues(log, mem);
  }
}
