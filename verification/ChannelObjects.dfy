/**
  The channel as the program keeps it: deques, a flag and one-shot futures,
  updated in place (src/basilisp/concurrent_channel.py:21-192). Each method
  does exactly what its function in `Channel` says.
*/
module ChannelObjects {
  import opened Prelude
  import Spec = Channel
  import opened Channel

  /** The futures of the event loop that owns the channels. */
  class EventLoop {
    var futs: Futs<ChannelObject>
    var next: FutId

    constructor ()
      ensures futs == map[] && next == 0
    {
      futs, next := map[], 0;
    }

    /** `_Waiter.resolve` and `_Selection.resolve`: true for the first winner only. */
    method Resolve(f: FutId, out: Outcome, c: ChannelObject, effects: seq<Effect<ChannelObject>>) returns (won: bool)
      modifies this`futs
      ensures won == old(Live(futs, f))
      ensures futs == if won then Spec.Resolve(old(futs), f, out, c, effects) else old(futs)
    {
      won := f in futs && futs[f].state.Pending?;
      if won {
        futs := futs[f := futs[f].(state := Resolved(out, c), effects := futs[f].effects + effects)];
      }
    }
  }

  lemma OffersLeft<K>(puts: seq<Offer>, i: nat, futs: Futs<K>)
    requires i < |puts|
    ensures LivePuts(puts[i..], futs)
         == (if Live(futs, puts[i].fut) then [puts[i]] else []) + LivePuts(puts[i + 1..], futs)
  {
    assert puts[i..][1..] == puts[i + 1..];
  }

  lemma TakesLeft<K>(takes: seq<FutId>, i: nat, futs: Futs<K>)
    requires i < |takes|
    ensures LiveTakes(takes[i..], futs)
         == (if Live(futs, takes[i]) then [takes[i]] else []) + LiveTakes(takes[i + 1..], futs)
  {
    assert takes[i..][1..] == takes[i + 1..];
  }

  lemma NoneLeft<K>(futs: Futs<K>)
    ensures LivePuts([], futs) == [] && LiveTakes([], futs) == []
  {
  }

  class ChannelObject {
    const capacity: nat
    const policy: Policy
    const loop: EventLoop
    var closed: bool
    var buffer: seq<V>
    var puts: seq<Offer>
    var takes: seq<FutId>
    ghost var arrived: seq<V>
    ghost var entered: seq<V>
    ghost var delivered: seq<V>
    ghost var removed: seq<V>

    ghost function Model(): Chan
      reads this
    {
      Chan(capacity, policy, closed, buffer, puts, takes, arrived, entered, delivered, removed)
    }

    constructor (capacity: nat, policy: Policy, loop: EventLoop)
      ensures Model() == NewChan(capacity, policy) && this.loop == loop
    {
      this.capacity, this.policy, this.loop := capacity, policy, loop;
      closed, buffer, puts, takes := false, [], [], [];
      arrived, entered, delivered, removed := [], [], [], [];
    }

    method DiscardInactive()
      modifies this
      ensures Model() == Discard(old(Model()), loop.futs)
    {
      hide LivePuts, LiveTakes;
      NoneLeft(loop.futs);
      assert puts[0..] == puts && takes[0..] == takes;
      var livePuts: seq<Offer>, i := [], 0;
      while i < |puts|
        invariant 0 <= i <= |puts|
        invariant livePuts + LivePuts(puts[i..], loop.futs) == LivePuts(puts, loop.futs)
        modifies {}
      {
        if puts[i].fut in loop.futs && loop.futs[puts[i].fut].state.Pending? {
          livePuts := livePuts + [puts[i]];
        }
        OffersLeft(puts, i, loop.futs);
        i := i + 1;
      }
      var liveTakes: seq<FutId>, j := [], 0;
      while j < |takes|
        invariant 0 <= j <= |takes|
        invariant liveTakes + LiveTakes(takes[j..], loop.futs) == LiveTakes(takes, loop.futs)
        modifies {}
      {
        if takes[j] in loop.futs && loop.futs[takes[j]].state.Pending? {
          liveTakes := liveTakes + [takes[j]];
        }
        TakesLeft(takes, j, loop.futs);
        j := j + 1;
      }
      assert puts[i..] == [] && takes[j..] == [];
      puts, takes := livePuts, liveTakes;
    }

    method FillBuffer()
      modifies this, loop`futs
      ensures (Model(), loop.futs) == old(Fill(this, Discard(Model(), loop.futs), loop.futs))
    {
      DiscardInactive();
      while puts != [] && |buffer| < capacity
        invariant Fill(this, Model(), loop.futs) == old(Fill(this, Discard(Model(), loop.futs), loop.futs))
        decreases |puts|
      {
        var offer := puts[0];
        puts := puts[1..];
        var won := loop.Resolve(offer.fut, PutDone(true), this, [Gave(this, offer.value)]);
        if won {
          arrived := arrived + [offer.value];
          entered := if |buffer| >= capacity then entered else entered + [offer.value];
          buffer := buffer + [offer.value];
        }
      }
    }

    method TryTake() returns (r: TakeResult)
      modifies this, loop`futs
      ensures (Model(), loop.futs, r) == old(Spec.TryTake(this, Model(), loop.futs))
    {
      DiscardInactive();
      if buffer != [] {
        var v := buffer[0];
        buffer := buffer[1..];
        delivered, removed := delivered + [v], removed + [v];
        FillBuffer();
        return Taken(v);
      }
      while puts != []
        invariant buffer == [] && closed == old(closed)
        invariant TakeOver(this, Model(), loop.futs) == old(TakeOver(this, Discard(Model(), loop.futs), loop.futs))
        decreases |puts|
      {
        var offer := puts[0];
        puts := puts[1..];
        var won := loop.Resolve(offer.fut, PutDone(true), this, [Gave(this, offer.value)]);
        if won {
          arrived, entered := arrived + [offer.value], entered + [offer.value];
          delivered, removed := delivered + [offer.value], removed + [offer.value];
          return Taken(offer.value);
        }
      }
      r := if closed then Nil else NotReady;
    }

    method TryPut(v: V) returns (r: PutResult)
      modifies this, loop`futs
      ensures (Model(), loop.futs, r) == old(Spec.TryPut(this, Model(), loop.futs, v))
    {
      if closed {
        return Refused;
      }
      DiscardInactive();
      while takes != []
        invariant !closed
        invariant HandOver(this, Model(), loop.futs, v)
               == old(HandOver(this, Discard(Model(), loop.futs), loop.futs, v))
        decreases |takes|
      {
        var f := takes[0];
        takes := takes[1..];
        var won := loop.Resolve(f, Took(v), this, [Got(this, v)]);
        if won {
          arrived, entered, delivered, removed := arrived + [v], entered + [v], delivered + [v], removed + [v];
          return Accepted;
        }
      }
      if capacity == 0 {
        return Blocked;
      }
      if |buffer| < capacity {
        arrived, entered := arrived + [v], entered + [v];
        buffer := buffer + [v];
        return Accepted;
      }
      if policy.Sliding? {
        arrived, removed := arrived + [v], removed + [buffer[0]];
        buffer := buffer[1..] + [v];
        return Accepted;
      }
      if policy.Dropping? {
        arrived := arrived + [v];
        return Accepted;
      }
      r := Blocked;
    }

    method Close()
      modifies this, loop`futs
      ensures (Model(), loop.futs) == old(Spec.Close(this, Model(), loop.futs))
    {
      if closed {
        return;
      }
      closed := true;
      DiscardInactive();
      ghost var offers := puts;
      ghost var futs0 := loop.futs;
      while puts != []
        invariant Model() == old(Discard(Model().(closed := true), loop.futs)).(puts := puts)
        invariant ResolveAll(this, OfferFuts(puts), loop.futs, PutDone(false))
               == ResolveAll(this, OfferFuts(offers), futs0, PutDone(false))
        decreases |puts|
      {
        var offer := puts[0];
        assert OfferFuts(puts)[1..] == OfferFuts(puts[1..]);
        puts := puts[1..];
        var won := loop.Resolve(offer.fut, PutDone(false), this, []);
      }
      if buffer == [] {
        ghost var waiting := takes;
        ghost var futs1 := loop.futs;
        while takes != []
          invariant Model() == old(Discard(Model().(closed := true), loop.futs)).(puts := [], takes := takes)
          invariant ResolveAll(this, takes, loop.futs, Drained) == ResolveAll(this, waiting, futs1, Drained)
          decreases |takes|
        {
          var f := takes[0];
          takes := takes[1..];
          var won := loop.Resolve(f, Drained, this, []);
        }
      }
    }
  }

  /** `Channel.__init__` with its argument checks; `None` stands for the ValueError. */
  method MakeChannel(capacity: int, policy: Policy, loop: EventLoop) returns (c: Option<ChannelObject>)
    ensures c.None? <==> capacity < 0 || (capacity == 0 && !policy.Fixed?)
    ensures c.Some? ==> fresh(c.value) && c.value.loop == loop && c.value.Model() == NewChan(capacity, policy)
  {
    if capacity < 0 || (capacity == 0 && !policy.Fixed?) {
      return None;
    }
    var made := new ChannelObject(capacity, policy, loop);
    c := Some(made);
  }

  /** The state of all channels `all` of one loop. */
  ghost function Snapshot(all: set<ChannelObject>, loop: EventLoop): Net<ChannelObject>
    reads all, loop
  {
    Net(map c: ChannelObject | c in all :: c.Model(), loop.futs, loop.next)
  }

  /** Calls a channel's own operation for one port. */
  method TryPort(loop: EventLoop, p: Port<ChannelObject>, ghost all: set<ChannelObject>) returns (out: Option<Outcome>)
    requires p.chan in all && p.chan.loop == loop
    modifies p.chan, loop`futs
    ensures Snapshot(all, loop) == old(Spec.TryPort(Snapshot(all, loop), p)).0
    ensures out == old(Spec.TryPort(Snapshot(all, loop), p)).1
  {
    match p {
      case TakeFrom(c) =>
        ghost var t := Spec.TryTake(c, c.Model(), loop.futs);
        var r := c.TryTake();
        assert Snapshot(all, loop).chans == old(Snapshot(all, loop)).chans[c := t.0];
        out := match r case Taken(v) => Some(Took(v)) case Nil => Some(Drained) case NotReady => None;
      case PutTo(c, v) =>
        ghost var t := Spec.TryPut(c, c.Model(), loop.futs, v);
        var r := c.TryPut(v);
        assert Snapshot(all, loop).chans == old(Snapshot(all, loop)).chans[c := t.0];
        out := match r case Accepted => Some(PutDone(true)) case Refused => Some(PutDone(false)) case Blocked => None;
    }
  }

  ghost predicate Members(ports: seq<Port<ChannelObject>>, all: set<ChannelObject>, loop: EventLoop) {
    forall i :: 0 <= i < |ports| ==> ports[i].chan in all && ports[i].chan.loop == loop
  }

  lemma MembersKnown(ports: seq<Port<ChannelObject>>, all: set<ChannelObject>, loop: EventLoop)
    requires Members(ports, all, loop)
    ensures Known(Snapshot(all, loop), ports)
  {
  }

  /** The first loop of `alts`. */
  method TryAll(loop: EventLoop, ports: seq<Port<ChannelObject>>, ghost all: set<ChannelObject>)
      returns (i: nat, out: Option<Outcome>)
    requires Members(ports, all, loop)
    modifies all, loop`futs
    ensures (Snapshot(all, loop), i, out) == old(TryPorts(Snapshot(all, loop), ports, 0))
    ensures i <= |ports| && (out.Some? ==> i < |ports|)
    ensures Snapshot(all, loop).next == old(Snapshot(all, loop)).next
  {
    hide Spec.TryPort;
    i := 0;
    while i < |ports|
      invariant 0 <= i <= |ports| && Known(Snapshot(all, loop), ports)
      invariant TryPorts(Snapshot(all, loop), ports, i) == old(TryPorts(Snapshot(all, loop), ports, 0))
    {
      ghost var t := Spec.TryPort(Snapshot(all, loop), ports[i]);
      out := TryPort(loop, ports[i], all);
      MembersKnown(ports, all, loop);
      if out.Some? {
        return;
      }
      i := i + 1;
    }
    out := None;
  }

  /** `_enqueue_take` or `_enqueue_put`. */
  method QueueOne(loop: EventLoop, p: Port<ChannelObject>, f: FutId, ghost all: set<ChannelObject>)
    requires p.chan in all
    modifies p.chan
    ensures var w := old(Snapshot(all, loop));
      Snapshot(all, loop) == w.(chans := w.chans[p.chan := Enqueue(w.chans[p.chan], p, f)])
  {
    match p {
      case TakeFrom(c) => c.takes := c.takes + [f];
      case PutTo(c, v) => c.puts := c.puts + [Offer(v, f)];
    }
  }

  /** The second loop of `alts`: every operation is queued for the one selection. */
  method QueueAll(loop: EventLoop, ports: seq<Port<ChannelObject>>, f: FutId, ghost all: set<ChannelObject>)
    requires Members(ports, all, loop)
    modifies all
    ensures var w := old(Snapshot(all, loop));
      Snapshot(all, loop) == w.(chans := EnqueueAll(w.chans, ports, |ports|, f))
  {
    MembersKnown(ports, all, loop);
    hide Enqueue, Snapshot;
    ghost var w := Snapshot(all, loop);
    var n := 0;
    while n < |ports|
      invariant 0 <= n <= |ports|
      invariant Snapshot(all, loop) == w.(chans := EnqueueAll(w.chans, ports, n, f))
    {
      QueueOne(loop, ports[n], f, all);
      n := n + 1;
    }
  }

  /** Numbers a selection. */
  method Record(loop: EventLoop, fut: Fut<ChannelObject>, ghost all: set<ChannelObject>)
    modifies loop
    ensures var w := old(Snapshot(all, loop));
      Snapshot(all, loop) == w.(futs := w.futs[w.next := fut], next := w.next + 1)
    ensures loop.next == old(loop.next) + 1
  {
    loop.futs := loop.futs[loop.next := fut];
    loop.next := loop.next + 1;
    assert Snapshot(all, loop).chans == old(Snapshot(all, loop)).chans;
  }

  /**
    `alts` up to the point where it waits, and with one port `put`, `take`,
    `offer` and `poll`. The order of `ports` is the order they are tried in.
  */
  method Select(loop: EventLoop, ports: seq<Port<ChannelObject>>, wait: bool, ghost all: set<ChannelObject>)
    requires Members(ports, all, loop)
    modifies all, loop
    ensures Snapshot(all, loop) == old(SelectStep(Snapshot(all, loop), ports, wait))
  {
    assert Snapshot(all, loop).next == loop.next;
    hide TryPorts, EnqueueAll, Snapshot;
    var i, out := TryAll(loop, ports, all);
    MembersKnown(ports, all, loop);
    var f := loop.next;
    if out.Some? {
      Record(loop, Fut(Resolved(out.value, ports[i].chan), ports, EffectOf(ports[i], out.value)), all);
    } else if !wait {
      Record(loop, Fut(Defaulted, ports, []), all);
    } else {
      Record(loop, Fut(Pending, ports, []), all);
      QueueAll(loop, ports, f, all);
    }
  }
}
