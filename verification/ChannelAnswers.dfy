/**
  What an answer means: nil is only ever the answer of a closed and drained
  channel, and false of a closed one, at the time of the answer and for ever
  after (src/basilisp/concurrent_channel.py:92-186).
*/
module ChannelAnswers {
  import opened Prelude
  import opened Channel
  import opened ChannelRuns

  predicate Truthful(out: Outcome, ch: Chan) {
    (out.Drained? ==> ch.closed && ch.buffer == []) && (out == PutDone(false) ==> ch.closed)
  }

  /** Every answer that named a channel is true of the channel as it is now. */
  ghost predicate AnswersTrue(w: World) {
    forall f :: f in w.futs && w.futs[f].state.Resolved? ==>
      w.futs[f].state.chan in w.chans && Truthful(w.futs[f].state.outcome, w.chans[w.futs[f].state.chan])
  }

  /** Futures only gained answers of channel `c` that are true of `ch`. */
  ghost predicate Answered(c: ChanId, ch: Chan, futs: Futs<ChanId>, futs1: Futs<ChanId>) {
    forall f :: f in futs1 ==>
      f in futs &&
      (futs1[f].state == futs[f].state ||
       (futs1[f].state.Resolved? && futs1[f].state.chan == c && Truthful(futs1[f].state.outcome, ch)))
  }

  /** A closed channel stays closed, and once drained stays drained. */
  predicate Ages(ch: Chan, ch1: Chan) {
    (ch.closed ==> ch1.closed) && (ch.closed && ch.buffer == [] ==> ch1.buffer == [])
  }

  lemma {:induction false} HandOverAnswers(c: ChanId, ch: Chan, futs: Futs<ChanId>, v: V, later: Chan)
    ensures var (ch1, futs1, _) := HandOver(c, ch, futs, v);
      Answered(c, later, futs, futs1) && ch1.closed == ch.closed && ch1.buffer == ch.buffer
    decreases |ch.takes|
  {
    if ch.takes != [] && !Live(futs, ch.takes[0]) {
      HandOverAnswers(c, ch.(takes := ch.takes[1..]), futs, v, later);
    }
  }

  lemma {:induction false} FillAnswers(c: ChanId, ch: Chan, futs: Futs<ChanId>, later: Chan)
    ensures Answered(c, later, futs, Fill(c, ch, futs).1) && Fill(c, ch, futs).0.closed == ch.closed
    decreases |ch.puts|
  {
    if ch.puts != [] && |ch.buffer| < ch.capacity {
      var o := ch.puts[0];
      var ch1 := ch.(puts := ch.puts[1..]);
      if Live(futs, o.fut) {
        var futs1 := Resolve(futs, o.fut, PutDone(true), c, [Gave(c, o.value)]);
        var ch2 := ch1.Arrive(o.value).(buffer := ch1.buffer + [o.value]);
        FillAnswers(c, ch2, futs1, later);
      } else {
        FillAnswers(c, ch1, futs, later);
      }
    }
  }

  lemma {:induction false} TakeOverAnswers(c: ChanId, ch: Chan, futs: Futs<ChanId>, later: Chan)
    ensures var (ch1, futs1, _) := TakeOver(c, ch, futs);
      Answered(c, later, futs, futs1) && ch1.closed == ch.closed && ch1.buffer == ch.buffer
    decreases |ch.puts|
  {
    if ch.puts != [] && !Live(futs, ch.puts[0].fut) {
      TakeOverAnswers(c, ch.(puts := ch.puts[1..]), futs, later);
    }
  }

  lemma {:induction false} ResolveAllAnswers(c: ChanId, fs: seq<FutId>, futs: Futs<ChanId>, out: Outcome, later: Chan)
    requires Truthful(out, later)
    ensures Answered(c, later, futs, ResolveAll(c, fs, futs, out))
    decreases |fs|
  {
    if fs != [] {
      var futs1 := if Live(futs, fs[0]) then Resolve(futs, fs[0], out, c, []) else futs;
      ResolveAllAnswers(c, fs[1..], futs1, out, later);
    }
  }

  lemma TryPutAnswers(c: ChanId, ch: Chan, futs: Futs<ChanId>, v: V)
    ensures var (ch1, futs1, r) := TryPut(c, ch, futs, v);
      Answered(c, ch1, futs, futs1) && Ages(ch, ch1) && (r.Refused? ==> ch1.closed)
  {
    if !ch.closed {
      HandOverAnswers(c, Discard(ch, futs), futs, v, TryPut(c, ch, futs, v).0);
    }
  }

  lemma TryTakeAnswers(c: ChanId, ch: Chan, futs: Futs<ChanId>)
    ensures var (ch1, futs1, r) := TryTake(c, ch, futs);
      Answered(c, ch1, futs, futs1) && Ages(ch, ch1) && (r.Nil? ==> ch1.closed && ch1.buffer == [])
  {
    var ch0 := Discard(ch, futs);
    var later := TryTake(c, ch, futs).0;
    if ch0.buffer != [] {
      var ch1 := Discard(ch0.Deliver(ch0.buffer[0]).(buffer := ch0.buffer[1..]), futs);
      FillAnswers(c, ch1, futs, later);
    } else {
      TakeOverAnswers(c, ch0, futs, later);
    }
  }

  lemma CloseAnswers(c: ChanId, ch: Chan, futs: Futs<ChanId>)
    ensures var (ch1, futs1) := Close(c, ch, futs);
      Answered(c, ch1, futs, futs1) && Ages(ch, ch1)
  {
    if !ch.closed {
      var later := Close(c, ch, futs).0;
      var ch0 := Discard(ch.(closed := true), futs);
      var futs1 := ResolveAll(c, OfferFuts(ch0.puts), futs, PutDone(false));
      ResolveAllAnswers(c, OfferFuts(ch0.puts), futs, PutDone(false), later);
      if ch0.buffer == [] {
        ResolveAllAnswers(c, ch0.takes, futs1, Drained, later);
      }
    }
  }

  lemma AnswersStep(w: World, c: ChanId, ch: Chan, futs: Futs<ChanId>)
    requires AnswersTrue(w) && c in w.chans && Answered(c, ch, w.futs, futs) && Ages(w.chans[c], ch)
    ensures AnswersTrue(w.(chans := w.chans[c := ch], futs := futs))
  {
    var w1 := w.(chans := w.chans[c := ch], futs := futs);
    forall f | f in futs && futs[f].state.Resolved?
      ensures futs[f].state.chan in w1.chans && Truthful(futs[f].state.outcome, w1.chans[futs[f].state.chan])
    {
      if futs[f].state == w.futs[f].state {
        assert Truthful(w.futs[f].state.outcome, w.chans[futs[f].state.chan]);
      }
    }
  }

  /** An answer given at once is true of the channel too. */
  lemma TryPortAnswers(w: World, p: Port<ChanId>)
    requires AnswersTrue(w) && p.chan in w.chans
    ensures var (w1, out) := TryPort(w, p);
      && AnswersTrue(w1) && p.chan in w1.chans && w1.chans.Keys == w.chans.Keys
      && (out.Some? ==> Truthful(out.value, w1.chans[p.chan]))
  {
    hide TryTake, TryPut, Truthful;
    var (w1, out) := TryPort(w, p);
    assert w1.chans.Keys == w.chans.Keys;
    match p
    case TakeFrom(c) =>
      TryTakeAnswers(c, w.chans[c], w.futs);
      var tried := TryTake(c, w.chans[c], w.futs);
      AnswersStep(w, c, tried.0, tried.1);
      TruthOfTake(tried.2, tried.0);
    case PutTo(c, v) =>
      TryPutAnswers(c, w.chans[c], w.futs, v);
      var tried := TryPut(c, w.chans[c], w.futs, v);
      AnswersStep(w, c, tried.0, tried.1);
      TruthOfPut(tried.2, tried.0);
  }

  lemma TruthOfTake(r: TakeResult, ch: Chan)
    requires r.Nil? ==> ch.closed && ch.buffer == []
    ensures (r.Taken? ==> Truthful(Took(r.value), ch)) && (r.Nil? ==> Truthful(Drained, ch))
  {
  }

  lemma TruthOfPut(r: PutResult, ch: Chan)
    requires r.Refused? ==> ch.closed
    ensures Truthful(PutDone(true), ch) && (r.Refused? ==> Truthful(PutDone(false), ch))
  {
  }

  lemma {:induction false} TryPortsAnswers(w: World, ports: seq<Port<ChanId>>, i: nat)
    requires AnswersTrue(w) && Known(w, ports) && i <= |ports|
    ensures var (w1, k, out) := TryPorts(w, ports, i);
      && AnswersTrue(w1) && w1.chans.Keys == w.chans.Keys
      && (out.Some? ==> k < |ports| && ports[k].chan in w1.chans && Truthful(out.value, w1.chans[ports[k].chan]))
    decreases |ports| - i
  {
    hide Truthful, TryPort, AnswersTrue;
    if i < |ports| {
      TryPortAnswers(w, ports[i]);
      var tried := TryPort(w, ports[i]);
      if tried.1.None? {
        TryPortsAnswers(tried.0, ports, i + 1);
      }
    }
  }

  lemma RecordAnswers(w: World, fut: Fut<ChanId>)
    requires AnswersTrue(w)
    requires fut.state.Resolved? ==> fut.state.chan in w.chans && Truthful(fut.state.outcome, w.chans[fut.state.chan])
    ensures AnswersTrue(w.(futs := w.futs[w.next := fut], next := w.next + 1))
  {
  }

  /** Queueing operations changes no buffer and closes nothing. */
  lemma {:induction false} EnqueueAllAges(chans: map<ChanId, Chan>, ports: seq<Port<ChanId>>, n: nat, f: FutId)
    requires n <= |ports| && PortsIn(chans, ports)
    ensures forall c :: c in chans ==>
      var ch := EnqueueAll(chans, ports, n, f)[c]; ch.closed == chans[c].closed && ch.buffer == chans[c].buffer
  {
    if n > 0 {
      EnqueueAllAges(chans, ports, n - 1, f);
    }
  }

  lemma SelectAnswers(w: World, ports: seq<Port<ChanId>>, wait: bool)
    requires AnswersTrue(w) && Known(w, ports)
    ensures AnswersTrue(SelectStep(w, ports, wait))
  {
    TryPortsAnswers(w, ports, 0);
    hide TryPorts, EnqueueAll, Truthful;
    var tried := TryPorts(w, ports, 0);
    var (w1, k, out) := (tried.0, tried.1, tried.2);
    assert Known(w1, ports);
    if out.Some? {
      RecordAnswers(w1, Fut(Resolved(out.value, ports[k].chan), ports, EffectOf(ports[k], out.value)));
    } else if !wait {
      RecordAnswers(w1, Fut(Defaulted, ports, []));
    } else {
      RecordAnswers(w1, Fut(Pending, ports, []));
      EnqueueAllAges(w1.chans, ports, |ports|, w.next);
      QueuedAnswers(w1.(futs := w1.futs[w1.next := Fut(Pending, ports, [])]),
        EnqueueAll(w1.chans, ports, |ports|, w.next));
      TryPortsNext(w, ports, 0);
    }
  }

  lemma {:induction false} TryPortsNext(w: World, ports: seq<Port<ChanId>>, i: nat)
    requires Known(w, ports) && i <= |ports|
    ensures TryPorts(w, ports, i).0.next == w.next
    decreases |ports| - i
  {
    if i < |ports| {
      var (w1, out) := TryPort(w, ports[i]);
      assert w1.chans.Keys == w.chans.Keys;
      if out.None? {
        TryPortsNext(w1, ports, i + 1);
      }
    }
  }

  lemma QueuedAnswers(w: World, chans: map<ChanId, Chan>)
    requires AnswersTrue(w) && chans.Keys == w.chans.Keys
    requires forall c :: c in w.chans ==> chans[c].closed == w.chans[c].closed && chans[c].buffer == w.chans[c].buffer
    ensures AnswersTrue(w.(chans := chans))
  {
  }

  lemma StepAnswers(w: World, e: Event)
    requires AnswersTrue(w)
    ensures AnswersTrue(Step(w, e))
  {
    hide Truthful, SelectStep, Close;
    if Admitted(w, e) {
      match e
      case Open(c, capacity, policy) =>
      case Select(ports, wait) => SelectAnswers(w, ports, wait);
      case Shut(c) =>
        CloseAnswers(c, w.chans[c], w.futs);
        var done := Close(c, w.chans[c], w.futs);
        AnswersStep(w, c, done.0, done.1);
      case Cancel(f) =>
      case Tidy(c) =>
        AnswersStep(w, c, Discard(w.chans[c], w.futs), w.futs);
    }
  }

  /**
    In every run a take answered with nil means a closed channel with nothing
    left, and a put answered with false a closed channel.
  */
  lemma {:induction false} AnswersStayTrue(run: seq<Event>)
    ensures AnswersTrue(Exec(Start(), run))
    decreases |run|
  {
    hide Step;
    if run == [] {
    } else {
      AnswersStayTrue(run[..|run| - 1]);
      StepAnswers(Exec(Start(), run[..|run| - 1]), run[|run| - 1]);
    }
  }
}
