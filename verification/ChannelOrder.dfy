/**
  The order in which operations wait on a channel, and what a channel was
  opened with (src/basilisp/concurrent_channel.py:65-83, 115-205).

  Selections are numbered as they start, so a queue is in order of arrival when
  its numbers never fall.
*/
module ChannelOrder {
  import opened Prelude
  import opened Channel
  import opened ChannelRuns
  import opened ChannelSteps

  predicate Ascending(fs: seq<FutId>) { forall i, j :: 0 <= i < j < |fs| ==> fs[i] <= fs[j] }

  predicate InOrder(ch: Chan) { Ascending(ch.takes) && Ascending(OfferFuts(ch.puts)) }

  /** An operation on a channel leaves its queues in order, and its size and policy alone. */
  predicate Leaves(ch: Chan, ch1: Chan) {
    ch1.capacity == ch.capacity && ch1.policy == ch.policy && (InOrder(ch) ==> InOrder(ch1))
  }

  lemma DropFirst(ch: Chan)
    ensures ch.takes != [] ==> Leaves(ch, ch.(takes := ch.takes[1..]))
    ensures ch.puts != [] ==> Leaves(ch, ch.(puts := ch.puts[1..]))
  {
    if ch.puts != [] {
      assert OfferFuts(ch.puts[1..]) == OfferFuts(ch.puts)[1..];
    }
  }

  lemma {:induction false} LiveAscending(fs: seq<FutId>, futs: Futs<ChanId>)
    requires Ascending(fs)
    ensures Ascending(LiveTakes(fs, futs))
  {
    if fs != [] {
      LiveAscending(fs[1..], futs);
      LiveTakesIn(fs[1..], futs);
      var rest := LiveTakes(fs[1..], futs);
      forall j | 0 <= j < |rest| ensures fs[0] <= rest[j] {
        assert rest[j] in fs[1..];
      }
    }
  }

  lemma DiscardLeaves(ch: Chan, futs: Futs<ChanId>)
    ensures Leaves(ch, Discard(ch, futs))
  {
    if InOrder(ch) {
      LiveAscending(ch.takes, futs);
      LiveAscending(OfferFuts(ch.puts), futs);
      LiveOffers(ch.puts, futs);
    }
  }

  lemma {:induction false} HandOverLeaves(c: ChanId, ch: Chan, futs: Futs<ChanId>, v: V)
    ensures Leaves(ch, HandOver(c, ch, futs, v).0)
    decreases |ch.takes|
  {
    if ch.takes != [] {
      DropFirst(ch);
      if !Live(futs, ch.takes[0]) {
        HandOverLeaves(c, ch.(takes := ch.takes[1..]), futs, v);
      }
    }
  }

  lemma {:induction false} FillLeaves(c: ChanId, ch: Chan, futs: Futs<ChanId>)
    ensures Leaves(ch, Fill(c, ch, futs).0)
    decreases |ch.puts|
  {
    if ch.puts != [] && |ch.buffer| < ch.capacity {
      var o := ch.puts[0];
      var ch1 := ch.(puts := ch.puts[1..]);
      DropFirst(ch);
      if Live(futs, o.fut) {
        FillLeaves(c, ch1.Arrive(o.value).(buffer := ch1.buffer + [o.value]),
          Resolve(futs, o.fut, PutDone(true), c, [Gave(c, o.value)]));
      } else {
        FillLeaves(c, ch1, futs);
      }
    }
  }

  lemma {:induction false} TakeOverLeaves(c: ChanId, ch: Chan, futs: Futs<ChanId>)
    ensures Leaves(ch, TakeOver(c, ch, futs).0)
    decreases |ch.puts|
  {
    if ch.puts != [] {
      DropFirst(ch);
      if !Live(futs, ch.puts[0].fut) {
        TakeOverLeaves(c, ch.(puts := ch.puts[1..]), futs);
      }
    }
  }

  lemma TryPortLeaves(w: World, p: Port<ChanId>)
    requires p.chan in w.chans
    ensures var w1 := TryPort(w, p).0;
      w1.chans.Keys == w.chans.Keys && forall c :: c in w.chans ==> Leaves(w.chans[c], w1.chans[c])
  {
    hide LivePuts, LiveTakes, HandOver, TakeOver, Fill;
    var ch := w.chans[p.chan];
    var ch0 := Discard(ch, w.futs);
    DiscardLeaves(ch, w.futs);
    match p
    case PutTo(c, v) => HandOverLeaves(c, ch0, w.futs, v);
    case TakeFrom(c) =>
      if ch0.buffer != [] {
        var ch1 := ch0.Deliver(ch0.buffer[0]).(buffer := ch0.buffer[1..]);
        DiscardLeaves(ch1, w.futs);
        FillLeaves(c, Discard(ch1, w.futs), w.futs);
      } else {
        TakeOverLeaves(c, ch0, w.futs);
      }
  }

  lemma {:induction false} TryPortsLeave(w: World, ports: seq<Port<ChanId>>, i: nat)
    requires Known(w, ports) && i <= |ports|
    ensures var w1 := TryPorts(w, ports, i).0;
      w1.chans.Keys == w.chans.Keys && forall c :: c in w.chans ==> Leaves(w.chans[c], w1.chans[c])
    decreases |ports| - i
  {
    hide TryPort, InOrder;
    if i < |ports| {
      TryPortLeaves(w, ports[i]);
      var tried := TryPort(w, ports[i]);
      if tried.1.None? {
        TryPortsLeave(tried.0, ports, i + 1);
      }
    }
  }

  /** A queue is in order of arrival, and `f` would come last. */
  ghost predicate QueueOk(ch: Chan, f: FutId) {
    InOrder(ch) && (forall g :: g in ch.takes ==> g <= f) && forall o :: o in ch.puts ==> o.fut <= f
  }

  ghost predicate QueuesOk(chans: map<ChanId, Chan>, f: FutId) { forall c :: c in chans ==> QueueOk(chans[c], f) }

  lemma EnqueueInOrder(ch: Chan, p: Port<ChanId>, f: FutId)
    requires QueueOk(ch, f)
    ensures var ch1 := Enqueue(ch, p, f);
      QueueOk(ch1, f) && ch1.capacity == ch.capacity && ch1.policy == ch.policy
  {
    match p
    case TakeFrom(_) =>
      assert forall i :: 0 <= i < |ch.takes| ==> ch.takes[i] in ch.takes;
    case PutTo(_, v) =>
      assert forall i :: 0 <= i < |ch.puts| ==> ch.puts[i] in ch.puts;
      assert OfferFuts(ch.puts + [Offer(v, f)]) == OfferFuts(ch.puts) + [f];
  }

  lemma {:induction false} EnqueueAllInOrder(chans: map<ChanId, Chan>, ports: seq<Port<ChanId>>, n: nat, f: FutId)
    requires n <= |ports| && PortsIn(chans, ports) && QueuesOk(chans, f)
    ensures QueuesOk(EnqueueAll(chans, ports, n, f), f)
    ensures forall c :: c in chans ==>
      var ch := EnqueueAll(chans, ports, n, f)[c]; ch.capacity == chans[c].capacity && ch.policy == chans[c].policy
  {
    hide QueueOk, Enqueue;
    if n > 0 {
      EnqueueAllInOrder(chans, ports, n - 1, f);
      EnqueueInOrder(EnqueueAll(chans, ports, n - 1, f)[ports[n - 1].chan], ports[n - 1], f);
    }
  }

  /** Every operation waiting in a queue belongs to a numbered selection. */
  lemma QueuesBelow(w: World)
    requires WorldOk(w) && forall c :: c in w.chans ==> InOrder(w.chans[c])
    ensures QueuesOk(w.chans, w.next)
  {
    hide InOrder, FutOk;
    forall c | c in w.chans
      ensures forall g :: g in w.chans[c].takes ==> g <= w.next
      ensures forall o :: o in w.chans[c].puts ==> o.fut <= w.next
    {
      SoundChan(w, c);
    }
  }

  ghost predicate AllInOrder(w: World) { forall c :: c in w.chans ==> InOrder(w.chans[c]) }

  /** Channels are only ever opened, and keep what they were opened with. */
  ghost predicate Keeps(w: World, w1: World) {
    forall c :: c in w.chans ==>
      c in w1.chans && w1.chans[c].capacity == w.chans[c].capacity && w1.chans[c].policy == w.chans[c].policy
  }

  lemma SelectKeeps(w: World, ports: seq<Port<ChanId>>, wait: bool)
    requires WorldOk(w) && AllInOrder(w) && Known(w, ports)
    ensures var w1 := SelectStep(w, ports, wait);
      AllInOrder(w1) && Keeps(w, w1) && w1.chans.Keys == w.chans.Keys
  {
    hide InOrder, TryPorts, EnqueueAll, Sound, NoneLost, BalancedBut;
    TryPortsLeave(w, ports, 0);
    TryPortsOk(w, ports, 0);
    var tried := TryPorts(w, ports, 0);
    var w1 := tried.0;
    assert Known(w1, ports);
    if tried.2.None? && wait {
      QueuesBelow(w1);
      EnqueueAllInOrder(w1.chans, ports, |ports|, w.next);
    }
  }

  lemma CloseLeaves(c: ChanId, ch: Chan, futs: Futs<ChanId>)
    ensures Leaves(ch, Close(c, ch, futs).0)
  {
    hide Discard, ResolveAll;
    if !ch.closed {
      DiscardLeaves(ch.(closed := true), futs);
    }
  }

  lemma StepKeeps(w: World, e: Event)
    requires WorldOk(w) && AllInOrder(w)
    ensures AllInOrder(Step(w, e)) && Keeps(w, Step(w, e))
  {
    hide WorldOk, Discard, SelectStep, Close, InOrder;
    OpenInOrder();
    if Admitted(w, e) {
      match e
      case Open(c, capacity, policy) =>
      case Select(ports, wait) => SelectKeeps(w, ports, wait);
      case Shut(c) => CloseLeaves(c, w.chans[c], w.futs);
      case Cancel(f) =>
      case Tidy(c) => DiscardLeaves(w.chans[c], w.futs);
    }
  }

  lemma OpenInOrder()
    ensures forall capacity, policy :: InOrder(NewChan(capacity, policy))
  {
  }

  lemma {:induction false} RunInOrder(run: seq<Event>)
    ensures AllInOrder(Exec(Start(), run))
    decreases |run|
  {
    hide Step, InOrder;
    if run != [] {
      RunInOrder(run[..|run| - 1]);
      RunOk(run[..|run| - 1]);
      StepKeeps(Exec(Start(), run[..|run| - 1]), run[|run| - 1]);
    }
  }

  /**
    First come, first served, in every run: of the operations that can still
    win, the one in turn belongs to the selection that started first.
  */
  lemma ServedByAge(run: seq<Event>, c: ChanId, j: int)
    requires c in Exec(Start(), run).chans
    ensures var w := Exec(Start(), run);
      var ch := w.chans[c];
      && (FirstTake(ch.takes, w.futs, j) ==> forall g :: g in ch.takes && Live(w.futs, g) ==> ch.takes[j] <= g)
      && (FirstPut(ch.puts, w.futs, j) ==> forall o :: o in ch.puts && Live(w.futs, o.fut) ==> ch.puts[j].fut <= o.fut)
  {
    RunInOrder(run);
    var w := Exec(Start(), run);
    hide Exec;
    FirstIsOldest(w.chans[c], w.futs, j);
  }

  lemma FirstIsOldest(ch: Chan, futs: Futs<ChanId>, j: int)
    requires InOrder(ch)
    ensures FirstTake(ch.takes, futs, j) ==> forall g :: g in ch.takes && Live(futs, g) ==> ch.takes[j] <= g
    ensures FirstPut(ch.puts, futs, j) ==>
      forall o :: o in ch.puts && Live(futs, o.fut) ==> ch.puts[j].fut <= o.fut
  {
    hide Live;
    if FirstPut(ch.puts, futs, j) {
      forall o | o in ch.puts && Live(futs, o.fut) ensures ch.puts[j].fut <= o.fut {
        var i :| 0 <= i < |ch.puts| && ch.puts[i] == o;
        assert OfferFuts(ch.puts)[j] <= OfferFuts(ch.puts)[i];
      }
    }
  }

  /** The size and policy of the first admitted opening of a channel. */
  function OpenedAs(run: seq<Event>, c: ChanId): Option<(nat, Policy)>
    decreases |run|
  {
    if run == [] then None
    else
      var before := OpenedAs(run[..|run| - 1], c);
      if before.Some? then before
      else
        match run[|run| - 1]
        case Open(d, capacity, policy) =>
          if d == c && (capacity == 0 ==> policy.Fixed?) then Some((capacity, policy)) else None
        case _ => None
  }

  /** A channel is what it was first opened as, and there are no others. */
  lemma {:induction false} KeepsWhatItWasOpenedWith(run: seq<Event>, c: ChanId)
    ensures var w := Exec(Start(), run);
      && (c in w.chans <==> OpenedAs(run, c).Some?)
      && (c in w.chans ==> OpenedAs(run, c) == Some((w.chans[c].capacity, w.chans[c].policy)))
    decreases |run|
  {
    if run != [] {
      var (init, last) := (run[..|run| - 1], run[|run| - 1]);
      var w := Exec(Start(), init);
      KeepsWhatItWasOpenedWith(init, c);
      RunOk(init);
      RunInOrder(init);
      StepKeeps(w, last);
      if c !in w.chans {
        OnlyOpened(w, last, c);
      }
    }
  }

  lemma OnlyOpened(w: World, e: Event, c: ChanId)
    requires WorldOk(w) && AllInOrder(w) && c !in w.chans
    ensures match e
            case Open(d, capacity, policy) =>
              && (c in Step(w, e).chans <==> d == c && (capacity == 0 ==> policy.Fixed?))
              && (c in Step(w, e).chans ==>
                   Step(w, e).chans[c].capacity == capacity && Step(w, e).chans[c].policy == policy)
            case _ => c !in Step(w, e).chans
  {
    hide WorldOk, Discard, SelectStep, Close;
    if e.Select? && Admitted(w, e) {
      SelectKeeps(w, e.ports, e.wait);
    }
  }
}
