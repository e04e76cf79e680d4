/**
  Lazy sequences (rust/src/basilisp_native/seq.rs:106-123, 147-159, 199-222,
  415-562).

  A generator either pulls one element from a single-use iterator, or gives a
  given element before more, or returns another lazy sequence. Cells memoize.
*/
module LazySeq {
  import opened Prelude

  type E(!new)

  /**
    A single-use iterator. `elems` are its elements or, when it never ends, as
    many of its first elements as a run asks for.
  */
  class Iter {
    const elems: seq<E>
    const endless: bool
    var pos: nat

    constructor (elems: seq<E>, endless: bool)
      ensures this.elems == elems && this.endless == endless && pos == 0
    {
      this.elems, this.endless, pos := elems, endless, 0;
    }

    method Next() returns (e: Option<E>)
      requires pos <= |elems| && (endless ==> pos < |elems|)
      modifies this
      ensures old(pos) < |elems| ==> e == Some(elems[old(pos)]) && pos == old(pos) + 1
      ensures old(pos) == |elems| ==> e.None? && pos == old(pos)
    {
      if pos < |elems| {
        e := Some(elems[pos]);
        pos := pos + 1;
      } else {
        e := None;
      }
    }
  }

  /** `Pull` is `Sequence.__call__`; `Give` returns a cons and `Wrap` a lazy sequence with the next generator. */
  datatype Gen = Pull | Give(value: E, next: Gen) | Wrap(next: Gen)

  /** What a generator or a cell returns. */
  datatype Obj = Nil | Empty | Cons(first: E, rest: Cell) | Lazy(cell: Cell)

  datatype State = Initialized(gen: Gen) | Computing | Computed(obj: Obj) | Realized(seqObj: Obj)

  class Cell {
    var state: State
    ghost var calls: nat

    constructor (gen: Gen)
      ensures state == Initialized(gen) && calls == 0
    {
      state, calls := Initialized(gen), 0;
    }
  }

  /** The elements a generator gives before it pulls. */
  function Given(g: Gen): seq<E> {
    match g
    case Pull => []
    case Give(v, next) => [v] + Given(next)
    case Wrap(next) => Given(next)
  }

  function Depth(g: Gen): nat {
    match g
    case Pull => 0
    case Give(_, next) => 1 + Depth(next)
    case Wrap(next) => 1 + Depth(next)
  }

  /** The elements on the first `n` links; a link without an element leads to a lazy sequence. */
  function Elements(links: seq<Option<E>>, n: nat): seq<E>
    requires n <= |links|
  {
    if n == 0 then []
    else Elements(links, n - 1) + (if links[n - 1].Some? then [links[n - 1].value] else [])
  }

  /** The first link from `i` on that has an element, or the end. */
  function Head(links: seq<Option<E>>, i: nat): (k: nat)
    requires i <= |links|
    ensures i <= k <= |links|
    ensures k < |links| ==> links[k].Some?
    ensures forall j :: i <= j < k ==> links[j].None?
    decreases |links| - i
  {
    if i == |links| || links[i].Some? then i else Head(links, i + 1)
  }

  lemma {:induction false} ElementsPrefix(links: seq<Option<E>>, more: seq<Option<E>>, n: nat)
    requires n <= |links|
    ensures Elements(links + more, n) == Elements(links, n)
  {
    if n > 0 {
      ElementsPrefix(links, more, n - 1);
    }
  }

  lemma {:induction false} ElementsGrow(links: seq<Option<E>>, m: nat, n: nat)
    requires m <= n <= |links|
    ensures Elements(links, m) <= Elements(links, n)
  {
    if m < n {
      ElementsGrow(links, m, n - 1);
    }
  }

  lemma {:induction false} HeadPrefix(links: seq<Option<E>>, more: seq<Option<E>>, i: nat)
    requires i <= |links|
    ensures Head(links, i) < |links| ==> Head(links + more, i) == Head(links, i)
    decreases |links| - i
  {
    if i < |links| && links[i].None? {
      HeadPrefix(links, more, i + 1);
    }
  }

  lemma {:induction false} NoElements(links: seq<Option<E>>, i: nat, j: nat)
    requires i <= j <= |links| && forall k :: i <= k < j ==> links[k].None?
    ensures Elements(links, i) == Elements(links, j) && Head(links, i) == Head(links, j)
    decreases j - i
  {
    if i < j {
      NoElements(links, i + 1, j);
    }
  }

  /** One more link at the end. */
  lemma LinkAdded(links: seq<Option<E>>, e: Option<E>)
    ensures Elements(links + [e], |links| + 1) == Elements(links, |links|) + (if e.Some? then [e.value] else [])
    ensures forall i :: 0 <= i <= |links| && Head(links, i) < |links| ==> Head(links + [e], i) == Head(links, i)
  {
    ElementsPrefix(links, [e], |links|);
    forall i | 0 <= i <= |links| && Head(links, i) < |links| ensures Head(links + [e], i) == Head(links, i) {
      HeadPrefix(links, [e], i);
    }
  }

  /** The cells in the order they were created, each leading to the next. */
  class Chain {
    const iter: Iter
    const all: seq<E>
    ghost var cells: seq<Cell>
    ghost var links: seq<Option<E>>
    ghost var ended: bool

    /** `lazy-seq` over a generator that has not been called. */
    constructor (elems: seq<E>, endless: bool, gen: Gen)
      ensures Valid() && fresh(iter) && fresh(cells) && iter.elems == elems && iter.endless == endless && iter.pos == 0
      ensures |cells| == 1 && all == Given(gen) + elems
    {
      var it := new Iter(elems, endless);
      var c := new Cell(gen);
      iter, all := it, Given(gen) + elems;
      cells, links, ended := [c], [], false;
    }

    /** What `seq` returns for the `i`-th cell, once that is known. */
    ghost function SeqObj(i: nat): Obj
      requires i <= |links| < |cells|
      reads this
    {
      var k := Head(links, i);
      if k == |links| then Nil else Cons(links[k].value, cells[k + 1])
    }

    ghost predicate LinkOk(i: nat)
      requires i < |links| < |cells|
      reads this, cells[i]
    {
      && cells[i].calls == 1
      && match cells[i].state
         case Computed(obj) =>
           obj == if links[i].Some? then Cons(links[i].value, cells[i + 1]) else Lazy(cells[i + 1])
         case Realized(obj) => obj == SeqObj(i) && (obj.Nil? ==> ended)
         case _ => false
    }

    /** The last cell: not called yet, or called when the iterator was exhausted. */
    ghost predicate LastOk()
      requires |links| < |cells|
      reads this, iter, cells[|links|]
    {
      var last := cells[|links|];
      if ended then
        last.calls == 1 && (last.state == Computed(Empty) || last.state == Realized(Nil)) &&
        iter.pos == |iter.elems| && all == Elements(links, |links|)
      else
        last.calls == 0 && last.state.Initialized? && iter.pos <= |iter.elems| &&
        all == Elements(links, |links|) + Given(last.state.gen) + iter.elems[iter.pos..]
    }

    /** Every cell but the last has been called, and leads to the next. */
    ghost predicate Linked()
      reads this, cells
    {
      && |cells| == |links| + 1
      && (forall i, j :: 0 <= i < j < |cells| ==> cells[i] != cells[j])
      && (forall i :: 0 <= i < |links| ==> LinkOk(i))
    }

    ghost predicate Valid()
      reads this, iter, cells
    {
      Linked() && LastOk() && iter.pos <= |iter.elems| && iter.pos <= |Elements(links, |links|)|
    }

    /** How many elements have been produced. */
    ghost function Produced(): nat
      reads this
    {
      |Elements(links, |links|)|
    }

    /** There is an element from the `i`-th cell on, unless the iterator ends. */
    ghost predicate GoesOn(i: nat)
      requires i <= |links|
      reads this
    {
      iter.endless ==> |Elements(links, i)| < |all|
    }

    /** `obj` is what a generator, or a memoized cell, tells about the `i`-th cell. */
    ghost predicate Tells(i: nat, obj: Obj)
      requires i <= |links| < |cells|
      reads this
    {
      || (i < |links| && obj == if links[i].Some? then Cons(links[i].value, cells[i + 1]) else Lazy(cells[i + 1]))
      || (i == |links| && ended && obj == Empty)
      || (obj == SeqObj(i) && (obj.Nil? ==> ended))
    }

    lemma LazyTold(i: nat, obj: Obj)
      requires i <= |links| < |cells| && Tells(i, obj) && obj.Lazy?
      ensures i < |links| && links[i].None? && obj.cell == cells[i + 1]
    {
    }

    /** The element a realized cell holds is the next one after those before the cell. */
    lemma SeqObjGives(i: nat)
      requires Valid() && i <= |links| && (SeqObj(i).Nil? ==> ended)
      ensures Elements(links, i) <= all && Produced() <= |all|
      ensures SeqObj(i).Nil? ==> Elements(links, i) == all
      ensures SeqObj(i).Cons? ==>
        && var k := Head(links, i);
        && k < |links| && SeqObj(i).rest == cells[k + 1]
        && Elements(links, k + 1) == Elements(links, i) + [SeqObj(i).first] && Elements(links, k + 1) <= all
    {
      var k := Head(links, i);
      NoElements(links, i, k);
      ElementsGrow(links, k, |links|);
      if k < |links| {
        ElementsGrow(links, k + 1, |links|);
      }
    }

    /** Everything made before is still there; nothing realized has changed. */
    twostate predicate Grew()
      reads this, iter, cells
    {
      && old(cells) <= cells && old(links) <= links
      && (old(ended) ==> ended && links == old(links))
      && (forall c :: c in old(cells) && old(c.state).Realized? ==> c.state == old(c.state))
      && (forall c :: c in cells && c !in old(cells) ==> fresh(c))
    }

    /** The last cell's call created a new cell; `e` is the element before it, if any. */
    method Extend(c: Cell, e: Option<E>, g: Gen) returns (obj: Obj)
      requires Linked() && !ended && cells[|links|] == c && c.calls == 1 && c.state.Computing?
      modifies this, c
      ensures Linked() && Grew() && c.state == Computed(obj) && c.calls == 1
      ensures links == old(links) + [e] && !ended && fresh(cells[|links|]) && cells[..|links|] == old(cells)
      ensures cells[|links|].state == Initialized(g) && cells[|links|].calls == 0
      ensures obj == if e.Some? then Cons(e.value, cells[|links|]) else Lazy(cells[|links|])
      ensures Elements(links, |links|) == old(Elements(links, |links|)) + (if e.Some? then [e.value] else [])
    {
      var next := new Cell(g);
      obj := if e.Some? then Cons(e.value, next) else Lazy(next);
      c.state := Computed(obj);
      LinkAdded(links, e);
      cells, links := cells + [next], links + [e];
      forall i | 0 <= i < |links| ensures LinkOk(i) {
        if i < |old(links)| {
          assert old(LinkOk(i));
          assert cells[i] == old(cells[i]) && cells[i] != c;
        }
      }
    }

    /** The last cell's call found the iterator exhausted. */
    method End(c: Cell) returns (obj: Obj)
      requires Linked() && !ended && cells[|links|] == c && c.calls == 1 && c.state.Computing?
      modifies this`ended, c
      ensures Linked() && Grew() && c.state == Computed(Empty) && c.calls == 1 && obj == Empty && ended
    {
      obj := Empty;
      ended := true;
      c.state := Computed(Empty);
      forall i | 0 <= i < |links| ensures LinkOk(i) {
        assert old(LinkOk(i));
        assert cells[i] != c;
      }
    }

    /** The last cell's call pulls one element. */
    method PullOne(c: Cell) returns (obj: Obj)
      requires Linked() && !ended && cells[|links|] == c && c.calls == 1 && c.state.Computing?
      requires iter.pos <= |iter.elems| && (iter.endless ==> iter.pos < |iter.elems|)
      requires iter.pos <= Produced() && all == Elements(links, |links|) + iter.elems[iter.pos..]
      modifies this, iter, c
      ensures Valid() && Grew() && c.state == Computed(obj) && Tells(old(|links|), obj) && !obj.Lazy?
      ensures if ended then links == old(links) else links == old(links) + [links[old(|links|)]]
      ensures !ended ==> links[old(|links|)].Some? && obj.Cons? && cells[|links|].state == Initialized(Pull)
    {
      ghost var (left, before) := (iter.elems[iter.pos..], Elements(links, |links|));
      var e := iter.Next();
      if e.None? {
        assert left == [] && before + left == before;
        obj := End(c);
      } else {
        assert left == [e.value] + iter.elems[iter.pos..];
        assert before + left == before + [e.value] + iter.elems[iter.pos..];
        obj := Extend(c, e, Pull);
      }
    }

    /** The generator of a cell that has not been called. */
    method Generate(c: Cell, gen: Gen) returns (obj: Obj)
      requires Valid() && !ended && cells[|links|] == c && c.state == Initialized(gen) && GoesOn(|links|)
      modifies this, iter, c
      ensures Valid() && Grew() && c.state == Computed(obj) && Tells(old(|links|), obj)
      ensures if ended then links == old(links) else links == old(links) + [links[old(|links|)]]
      ensures !ended ==> links[old(|links|)].Some? == obj.Cons?
      ensures !ended ==> cells[|links|].state.Initialized? && Depth(cells[|links|].state.gen) <= Depth(gen)
      ensures obj.Lazy? ==> !ended && Depth(cells[|links|].state.gen) < Depth(gen)
    {
      c.state := Computing;
      c.calls := c.calls + 1;
      match gen {
        case Pull =>
          assert Elements(links, |links|) + [] == Elements(links, |links|);
          obj := PullOne(c);
        case Give(v, g) =>
          obj := Extend(c, Some(v), g);
        case Wrap(g) =>
          obj := Extend(c, None, g);
      }
    }

    /** `_compute_seq`: the generator is called once, at the first call. */
    method ComputeSeq(c: Cell, ghost i: nat) returns (obj: Obj)
      requires Valid() && i < |cells| && cells[i] == c && GoesOn(i)
      modifies this, iter, c
      ensures Valid() && Grew() && Tells(i, obj)
      ensures !c.state.Initialized? && (c.state.Realized? ==> old(c.state.Realized?))
      ensures Elements(links, i) == old(Elements(links, i))
      ensures Produced() <= Larger(old(Produced()), |Elements(links, i)| + (if obj.Lazy? then 0 else 1))
      ensures Rank() + |links| + (if obj.Lazy? then 1 else 0) <= old(Rank()) + |old(links)| + 1
    {
      if c.state.Computed? {
        assert i < |links| ==> LinkOk(i);
        return c.state.obj;
      }
      if c.state.Realized? {
        assert i < |links| ==> LinkOk(i);
        return c.state.seqObj;
      }
      assert i < |links| ==> LinkOk(i);
      obj := Generate(c, c.state.gen);
      if !ended {
        LinkAdded(old(links), links[i]);
        ElementsPrefix(old(links), [links[i]], i);
      }
    }

    /** How many calls away the next element can be. */
    ghost function Rank(): nat
      requires |links| < |cells|
      reads this, cells[|links|]
    {
      if !ended && cells[|links|].state.Initialized? then Depth(cells[|links|].state.gen) else 0
    }

    /** One round of that loop. */
    method UnwrapOnce(next: Cell, ghost i: nat, ghost j: nat) returns (wrapped: Obj)
      requires Valid() && i <= j < |links| && cells[j + 1] == next && GoesOn(i)
      requires forall k :: i <= k <= j ==> links[k].None?
      modifies this, iter, next
      ensures Valid() && Grew() && Tells(j + 1, wrapped)
      ensures |Elements(links, j + 1)| == |Elements(links, i)| == |old(Elements(links, i))|
      ensures Produced() <= Larger(old(Produced()), |Elements(links, i)| + (if wrapped.Lazy? then 0 else 1))
      ensures Rank() + |links| + (if wrapped.Lazy? then 1 else 0) <= old(Rank()) + |old(links)| + 1
    {
      hide Elements, LinkOk, LastOk, Head;
      NoElements(links, i, j + 1);
      wrapped := ComputeSeq(next, j + 1);
      assert old(links) + links[|old(links)|..] == links;
      ElementsPrefix(old(links), links[|old(links)|..], i);
      NoElements(links, i, j + 1);
    }

    /** The loop of `seq` over delegated lazy sequences; `j` is where it ends. */
    method Unwrap(c: Cell, ghost i: nat) returns (wrapped: Obj, ghost j: nat)
      requires Valid() && i < |cells| && cells[i] == c && !c.state.Realized? && GoesOn(i)
      modifies this, iter, cells
      ensures Valid() && Grew() && !c.state.Realized? && !c.state.Initialized?
      ensures i <= j <= |links| && Tells(j, wrapped) && !wrapped.Lazy? && forall k :: i <= k < j ==> links[k].None?
      ensures Produced() <= Larger(old(Produced()), |Elements(links, i)| + 1)
    {
      hide Elements, LinkOk, LastOk, Head, Tells, Rank;
      wrapped := ComputeSeq(c, i);
      j := i;
      while wrapped.Lazy?
        invariant Valid() && Grew() && i <= j <= |links| && Tells(j, wrapped)
        invariant !c.state.Realized? && !c.state.Initialized?
        invariant forall k :: i <= k < j ==> links[k].None?
        invariant |Elements(links, j)| == |Elements(links, i)| && GoesOn(i)
        invariant Produced() <= Larger(old(Produced()), |Elements(links, i)| + (if wrapped.Lazy? then 0 else 1))
        decreases Rank() + |links| - j + (if wrapped.Lazy? then 1 else 0)
      {
        LazyTold(j, wrapped);
        assert cells[j + 1] in cells;
        wrapped := UnwrapOnce(wrapped.cell, i, j);
        j := j + 1;
      }
    }

    /** `seq`: consumes delegated lazy sequences, and realizes the cell. */
    method Seq(c: Cell, ghost i: nat) returns (r: Obj)
      requires Valid() && i < |cells| && cells[i] == c && GoesOn(i)
      modifies this, iter, cells
      ensures Valid() && Grew() && c.state == Realized(r) && r == SeqObj(i) && (r.Nil? ==> ended)
      ensures Produced() <= Larger(old(Produced()), |Elements(links, i)| + 1)
    {
      if c.state.Realized? {
        assert i < |links| ==> LinkOk(i);
        return c.state.seqObj;
      }
      ghost var j;
      var wrapped;
      wrapped, j := Unwrap(c, i);
      r := if wrapped.Empty? then Nil else wrapped;
      NoElements(links, i, j);
      Realize(c, i, r);
    }

    method Realize(c: Cell, ghost i: nat, r: Obj)
      requires Valid() && i < |cells| && cells[i] == c && !c.state.Realized? && !c.state.Initialized?
      requires r == SeqObj(i) && (r.Nil? ==> ended)
      modifies c
      ensures Valid() && c.state == Realized(r)
    {
      c.state := Realized(r);
      forall k | 0 <= k < |links| ensures LinkOk(k) {
        assert old(LinkOk(k));
      }
    }
  }

  function Larger(a: nat, b: nat): nat { if a >= b then a else b }

  /** `SeqIterator`. */
  class Walker {
    var cur: Cell
    ghost var at: nat

    constructor (chain: Chain, first: Cell)
      requires chain.Valid() && first == chain.cells[0]
      ensures On(chain) && Yielded(chain) == 0
    {
      cur, at := first, 0;
    }

    ghost predicate On(chain: Chain)
      reads this, chain
    {
      |chain.cells| == |chain.links| + 1 && at < |chain.cells| && cur == chain.cells[at]
    }

    /** How many elements this walk has seen. */
    ghost function Yielded(chain: Chain): nat
      requires On(chain)
      reads this, chain
    {
      |Elements(chain.links, at)|
    }

    /** `__next__`: the next element of the whole sequence, pulling no more than that needs. */
    method Next(chain: Chain) returns (e: Option<E>)
      requires chain.Valid() && On(chain) && chain.GoesOn(at)
      modifies this, chain, chain.iter, chain.cells
      ensures chain.Valid() && chain.Grew() && On(chain)
      ensures old(Yielded(chain)) <= |chain.all|
      ensures old(Yielded(chain)) < |chain.all| ==>
        e == Some(chain.all[old(Yielded(chain))]) && Yielded(chain) == old(Yielded(chain)) + 1
      ensures old(Yielded(chain)) == |chain.all| ==> e.None? && Yielded(chain) == old(Yielded(chain))
      ensures chain.Produced() <= Larger(old(chain.Produced()), Yielded(chain))
    {
      hide Elements, Chain.LinkOk, Chain.LastOk;
      var s := chain.Seq(cur, at);
      assert old(chain.links) + chain.links[|old(chain.links)|..] == chain.links;
      ElementsPrefix(old(chain.links), chain.links[|old(chain.links)|..], at);
      chain.SeqObjGives(at);
      if s.Nil? {
        return None;
      }
      at := Head(chain.links, at) + 1;
      cur := s.rest;
      e := Some(s.first);
    }
  }

  /** How many of the turns are `i`'s. */
  function Turns(schedule: seq<nat>, i: nat): nat {
    if schedule == [] then 0
    else Turns(schedule[..|schedule| - 1], i) + (if schedule[|schedule| - 1] == i then 1 else 0)
  }

  lemma {:induction false} TurnsWithin(schedule: seq<nat>, i: nat)
    ensures Turns(schedule, i) <= |schedule|
  {
    if schedule != [] {
      TurnsWithin(schedule[..|schedule| - 1], i);
    }
  }

  ghost predicate AllOn(walkers: seq<Walker>, chain: Chain)
    reads walkers, chain
  {
    forall i :: 0 <= i < |walkers| ==> walkers[i].On(chain)
  }

  /** Each walk has seen the first elements of the whole sequence, as many as it had turns. */
  ghost predicate Seen(walkers: seq<Walker>, chain: Chain, out: seq<seq<E>>, turns: seq<nat>)
    reads walkers, chain
  {
    && |out| == |walkers| && AllOn(walkers, chain)
    && forall i :: 0 <= i < |walkers| ==>
      && out[i] == chain.all[..Smaller(Turns(turns, i), |chain.all|)]
      && walkers[i].Yielded(chain) == |out[i]|
  }

  /** No more elements have been produced than the furthest walk has seen. */
  ghost predicate NoneAhead(chain: Chain, out: seq<seq<E>>)
    reads chain
  {
    chain.Produced() > 0 ==> exists i :: 0 <= i < |out| && chain.Produced() <= |out[i]|
  }

  /**
    Any interleaving of walks over one lazy sequence. Every walk sees the same
    elements in order, the iterator is never ahead of the furthest walk, and a
    realized cell never changes. An iterator that never ends has as many
    elements as there are turns.
  */
  method Interleave(chain: Chain, walkers: seq<Walker>, schedule: seq<nat>) returns (out: seq<seq<E>>)
    requires chain.Valid() && chain.Produced() == 0
    requires forall i, j :: 0 <= i < j < |walkers| ==> walkers[i] != walkers[j]
    requires forall i :: 0 <= i < |walkers| ==> walkers[i].On(chain) && walkers[i].Yielded(chain) == 0
    requires forall t :: t in schedule ==> t < |walkers|
    requires chain.iter.endless ==> |schedule| <= |chain.all|
    modifies chain, chain.iter, chain.cells, walkers
    ensures chain.Valid() && chain.Grew() && Seen(walkers, chain, out, schedule) && NoneAhead(chain, out)
    ensures chain.iter.pos <= chain.Produced()
  {
    hide Chain.LinkOk, Chain.LastOk, Chain.Valid, Chain.Produced, Walker.Yielded;
    hide Elements, Seen, NoneAhead, AllOn, Turns, Smaller;
    if schedule == [] {
      out := seq(|walkers|, i => []);
      NothingSeen(chain, walkers, out);
    } else {
      var (before, i) := (schedule[..|schedule| - 1], schedule[|schedule| - 1]);
      assert i in schedule && forall t :: t in before ==> t in schedule;
      out := Interleave(chain, walkers, before);
      TurnsWithin(before, i);
      assert before + [i] == schedule;
      forall j | 0 <= j < |chain.cells| ensures chain.cells[j] in old(chain.cells) || fresh(chain.cells[j]) {
        assert chain.cells[j] in chain.cells;
      }
      out := Turn(chain, walkers, out, before, i);
    }
    Pulled(chain);
  }

  lemma NothingSeen(chain: Chain, walkers: seq<Walker>, out: seq<seq<E>>)
    requires chain.Valid() && chain.Produced() == 0 && |out| == |walkers| && forall i :: 0 <= i < |out| ==> out[i] == []
    requires forall i :: 0 <= i < |walkers| ==> walkers[i].On(chain) && walkers[i].Yielded(chain) == 0
    ensures Seen(walkers, chain, out, []) && NoneAhead(chain, out)
  {
  }

  lemma Pulled(chain: Chain)
    requires chain.Valid()
    ensures chain.iter.pos <= chain.Produced()
  {
  }

  /** One turn of one walk. */
  method Turn(chain: Chain, walkers: seq<Walker>, out0: seq<seq<E>>, ghost turns: seq<nat>, i: nat)
      returns (out: seq<seq<E>>)
    requires chain.Valid() && i < |walkers|
    requires forall i, j :: 0 <= i < j < |walkers| ==> walkers[i] != walkers[j]
    requires Seen(walkers, chain, out0, turns) && NoneAhead(chain, out0)
    requires chain.iter.endless ==> Turns(turns, i) < |chain.all|
    modifies chain, chain.iter, chain.cells, walkers[i]
    ensures chain.Valid() && chain.Grew()
    ensures Seen(walkers, chain, out, turns + [i]) && NoneAhead(chain, out)
  {
    hide Elements, Chain.LinkOk, Chain.LastOk;
    ghost var links0 := chain.links;
    var e := walkers[i].Next(chain);
    out := if e.Some? then out0[i := out0[i] + [e.value]] else out0;
    assert (turns + [i])[..|turns|] == turns;
    assert links0 + chain.links[|links0|..] == chain.links;
    forall j | 0 <= j < |walkers|
      ensures walkers[j].On(chain)
      ensures out[j] == chain.all[..Smaller(Turns(turns + [i], j), |chain.all|)]
      ensures walkers[j].Yielded(chain) == |out[j]|
    {
      if j != i {
        ElementsPrefix(links0, chain.links[|links0|..], walkers[j].at);
      }
    }
    if chain.Produced() > 0 && chain.Produced() > |out[i]| {
      var k :| 0 <= k < |out0| && old(chain.Produced()) <= |out0[k]|;
      assert |out0[k]| <= |out[k]|;
    }
  }
}
