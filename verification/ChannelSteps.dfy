/**
  What one event of a run does, told from the state before it
  (src/basilisp/concurrent_channel.py:92-205, 228-280).
*/
module ChannelSteps {
  import opened Prelude
  import opened Channel
  import opened ChannelRuns

  // ------------------------------------------------------------------
  // Who is served

  /** The put that has waited longest, of those that can still win. */
  ghost predicate FirstPut<K>(puts: seq<Offer>, futs: Futs<K>, j: int) {
    0 <= j < |puts| && Live(futs, puts[j].fut) && forall i :: 0 <= i < j ==> !Live(futs, puts[i].fut)
  }

  ghost predicate FirstTake<K>(takes: seq<FutId>, futs: Futs<K>, j: int) {
    0 <= j < |takes| && Live(futs, takes[j]) && forall i :: 0 <= i < j ==> !Live(futs, takes[i])
  }

  ghost predicate NoPut<K>(puts: seq<Offer>, futs: Futs<K>) {
    forall i :: 0 <= i < |puts| ==> !Live(futs, puts[i].fut)
  }

  ghost predicate NoTake<K>(takes: seq<FutId>, futs: Futs<K>) {
    forall i :: 0 <= i < |takes| ==> !Live(futs, takes[i])
  }

  /** One future was won, and no other changed. */
  ghost predicate Won<K>(futs: Futs<K>, futs1: Futs<K>, f: FutId, out: Outcome, c: K) {
    && futs1.Keys == futs.Keys && f in futs
    && futs1[f].state == Resolved(out, c) && futs1[f].ports == futs[f].ports
    && forall g :: g in futs && g != f ==> futs1[g] == futs[g]
  }

  /** A take gets the first of the buffered values and the waiting put, which moves up. */
  ghost predicate TakeDoes<K>(c: K, ch: Chan, futs: Futs<K>, ch1: Chan, futs1: Futs<K>, out: Outcome) {
    && ch1.closed == ch.closed
    && (NoPut(ch.puts, futs) ==>
      && futs1 == futs
      && ch1.buffer == (if ch.buffer == [] then [] else ch.buffer[1..])
      && out == if ch.buffer == [] then Drained else Took(ch.buffer[0]))
    && forall j :: FirstPut(ch.puts, futs, j) ==>
      var line := ch.buffer + [ch.puts[j].value];
      ch1.buffer == line[1..] && out == Took(line[0]) && Won(futs, futs1, ch.puts[j].fut, PutDone(true), c)
  }

  /** A put goes to the waiting take, else into the buffer; only a full one drops it, or its own oldest value. */
  ghost predicate PutDoes<K>(c: K, v: V, ch: Chan, futs: Futs<K>, ch1: Chan, futs1: Futs<K>, out: Outcome) {
    && ch1.closed == ch.closed && out == PutDone(!ch.closed)
    && (ch.closed ==> futs1 == futs && ch1.buffer == ch.buffer)
    && (!ch.closed && NoTake(ch.takes, futs) ==>
      && futs1 == futs
      && ch1.buffer == if |ch.buffer| < ch.capacity then ch.buffer + [v]
                       else if ch.policy.Sliding? then (ch.buffer + [v])[1..]
                       else ch.buffer)
    && forall j :: !ch.closed && FirstTake(ch.takes, futs, j) ==>
      ch1.buffer == ch.buffer && Won(futs, futs1, ch.takes[j], Took(v), c)
  }

  ghost predicate PortDoes<K>(p: Port<K>, ch: Chan, futs: Futs<K>, ch1: Chan, futs1: Futs<K>, out: Outcome) {
    match p
    case TakeFrom(c) => TakeDoes(c, ch, futs, ch1, futs1, out)
    case PutTo(c, v) => PutDoes(c, v, ch, futs, ch1, futs1, out)
  }

  lemma {:induction false} FirstLivePut<K>(puts: seq<Offer>, futs: Futs<K>) returns (j: int)
    ensures NoPut(puts, futs) <==> LivePuts(puts, futs) == []
    ensures !NoPut(puts, futs) ==> FirstPut(puts, futs, j) && LivePuts(puts, futs)[0] == puts[j]
    ensures forall k :: FirstPut(puts, futs, k) ==> k == j && !NoPut(puts, futs)
  {
    hide Live;
    if puts == [] {
      j := 0;
    } else if Live(futs, puts[0].fut) {
      j := 0;
    } else {
      j := FirstLivePut(puts[1..], futs);
      j := j + 1;
      PutsAfterDead(puts, futs);
      hide FirstPut, NoPut;
    }
  }

  lemma PutsAfterDead<K>(puts: seq<Offer>, futs: Futs<K>)
    requires puts != [] && !Live(futs, puts[0].fut)
    ensures NoPut(puts, futs) <==> NoPut(puts[1..], futs)
    ensures forall k :: FirstPut(puts, futs, k) <==> FirstPut(puts[1..], futs, k - 1)
  {
    hide Live;
    var rest := puts[1..];
    assert forall i :: 1 <= i < |puts| ==> puts[i] == rest[i - 1];
    forall k ensures FirstPut(puts, futs, k) <==> FirstPut(rest, futs, k - 1) {
      assert forall i :: 0 <= i < |rest| ==> rest[i] == puts[i + 1];
    }
  }

  lemma {:induction false} FirstLiveTake<K>(takes: seq<FutId>, futs: Futs<K>) returns (j: int)
    ensures NoTake(takes, futs) <==> LiveTakes(takes, futs) == []
    ensures !NoTake(takes, futs) ==> FirstTake(takes, futs, j) && LiveTakes(takes, futs)[0] == takes[j]
    ensures forall k :: FirstTake(takes, futs, k) ==> k == j && !NoTake(takes, futs)
  {
    hide Live;
    if takes == [] {
      j := 0;
    } else if Live(futs, takes[0]) {
      j := 0;
    } else {
      j := FirstLiveTake(takes[1..], futs);
      j := j + 1;
      TakesAfterDead(takes, futs);
      hide FirstTake, NoTake;
    }
  }

  lemma TakesAfterDead<K>(takes: seq<FutId>, futs: Futs<K>)
    requires takes != [] && !Live(futs, takes[0])
    ensures NoTake(takes, futs) <==> NoTake(takes[1..], futs)
    ensures forall k :: FirstTake(takes, futs, k) <==> FirstTake(takes[1..], futs, k - 1)
  {
    hide Live;
    var rest := takes[1..];
    assert forall i :: 1 <= i < |takes| ==> takes[i] == rest[i - 1];
    forall k ensures FirstTake(takes, futs, k) <==> FirstTake(rest, futs, k - 1) {
      assert forall i :: 0 <= i < |rest| ==> rest[i] == takes[i + 1];
    }
  }

  // ------------------------------------------------------------------
  // One operation tried on one channel

  lemma TryTakeDoes<K>(c: K, ch: Chan, futs: Futs<K>)
    requires ChanOk(c, ch, futs)
    ensures var (ch1, futs1, r) := TryTake(c, ch, futs);
      match r
      case NotReady => !ch.closed && ch.buffer == [] && NoPut(ch.puts, futs)
      case Nil => (ch.closed || ch.buffer != [] || !NoPut(ch.puts, futs)) && TakeDoes(c, ch, futs, ch1, futs1, Drained)
      case Taken(v) =>
        (ch.closed || ch.buffer != [] || !NoPut(ch.puts, futs)) && TakeDoes(c, ch, futs, ch1, futs1, Took(v))
  {
    var ch0 := Discard(ch, futs);
    var j := FirstLivePut(ch.puts, futs);
    DiscardOk(c, ch, futs);
    var (ch1, futs1, r) := TryTake(c, ch, futs);
    hide LivePuts, LiveTakes, ChanOk, Fill, TakeOver, TakeDoes;
    if ch0.buffer != [] {
      TakeBufferedDoes(c, ch0, futs);
      TakeExplained(c, ch, futs, ch1, futs1, j, Took(r.value));
    } else {
      TakeWaitingDoes(c, ch0, futs);
      if !r.NotReady? {
        TakeExplained(c, ch, futs, ch1, futs1, j, if r.Taken? then Took(r.value) else Drained);
      }
    }
  }

  lemma TakeExplained<K>(c: K, ch: Chan, futs: Futs<K>, ch1: Chan, futs1: Futs<K>, j: int, out: Outcome)
    requires NoPut(ch.puts, futs) || FirstPut(ch.puts, futs, j)
    requires ch1.closed == ch.closed
    requires NoPut(ch.puts, futs) ==>
      && futs1 == futs && ch1.buffer == (if ch.buffer == [] then [] else ch.buffer[1..])
      && out == if ch.buffer == [] then Drained else Took(ch.buffer[0])
    requires FirstPut(ch.puts, futs, j) ==>
      var o := ch.puts[j];
      && futs1 == Resolve(futs, o.fut, PutDone(true), c, [Gave(c, o.value)])
      && ch1.buffer == (if ch.buffer == [] then [] else ch.buffer[1..] + [o.value])
      && out == Took(if ch.buffer == [] then o.value else ch.buffer[0])
    ensures TakeDoes(c, ch, futs, ch1, futs1, out)
  {
  }

  /** A take from an empty buffer gets the first waiting put. */
  lemma TakeWaitingDoes<K>(c: K, ch: Chan, futs: Futs<K>)
    requires AllLive(ch, futs)
    ensures var (ch1, futs1, got) := TakeOver(c, ch, futs);
      && ch1.closed == ch.closed && ch1.buffer == ch.buffer
      && (ch.puts == [] ==> got == None && futs1 == futs)
      && (ch.puts != [] ==>
        && got == Some(ch.puts[0].value)
        && futs1 == Resolve(futs, ch.puts[0].fut, PutDone(true), c, [Gave(c, ch.puts[0].value)]))
  {
    if ch.puts != [] {
      assert Live(futs, ch.puts[0].fut);
    }
  }

  /** A take from the buffer lets the first waiting put in. */
  lemma TakeBufferedDoes<K>(c: K, ch: Chan, futs: Futs<K>)
    requires ChanOk(c, ch, futs) && AllLive(ch, futs) && ch.buffer != []
    ensures var (ch1, futs1) := Fill(c, Discard(ch.Deliver(ch.buffer[0]).(buffer := ch.buffer[1..]), futs), futs);
      && ch1.closed == ch.closed
      && (ch.puts == [] ==> ch1.buffer == ch.buffer[1..] && futs1 == futs)
      && (ch.puts != [] ==>
        && ch1.buffer == ch.buffer[1..] + [ch.puts[0].value]
        && futs1 == Resolve(futs, ch.puts[0].fut, PutDone(true), c, [Gave(c, ch.puts[0].value)]))
  {
    hide Kept;
    var ch1 := Discard(ch.Deliver(ch.buffer[0]).(buffer := ch.buffer[1..]), futs);
    AllLivePuts(ch.puts, futs);
    assert ch1.puts == ch.puts;
    if ch.puts != [] {
      assert Live(futs, ch.puts[0].fut) && |ch.buffer| == ch.capacity;
      FillsOne(c, ch1, futs);
    }
  }

  /** With room for one value, the first waiting put fills it. */
  lemma FillsOne<K>(c: K, ch: Chan, futs: Futs<K>)
    requires ch.puts != [] && Live(futs, ch.puts[0].fut) && |ch.buffer| + 1 == ch.capacity
    ensures var (ch1, futs1) := Fill(c, ch, futs);
      && ch1.buffer == ch.buffer + [ch.puts[0].value] && ch1.closed == ch.closed
      && futs1 == Resolve(futs, ch.puts[0].fut, PutDone(true), c, [Gave(c, ch.puts[0].value)])
  {
  }

  lemma TryPutDoes<K>(c: K, ch: Chan, futs: Futs<K>, v: V)
    requires ChanOk(c, ch, futs)
    ensures var (ch1, futs1, r) := TryPut(c, ch, futs, v);
      match r
      case Blocked => !ch.closed && |ch.buffer| == ch.capacity && ch.policy.Fixed? && NoTake(ch.takes, futs)
      case Accepted =>
        && (ch.closed || |ch.buffer| != ch.capacity || !ch.policy.Fixed? || !NoTake(ch.takes, futs))
        && PutDoes(c, v, ch, futs, ch1, futs1, PutDone(true))
      case Refused => ch.closed && PutDoes(c, v, ch, futs, ch1, futs1, PutDone(false))
  {
    var j := FirstLiveTake(ch.takes, futs);
    if !ch.closed {
      DiscardOk(c, ch, futs);
    }
  }

  // ------------------------------------------------------------------
  // Several operations tried in turn

  /** Operations that can no longer win were forgotten. */
  ghost predicate Trimmed(ch: Chan, ch1: Chan, futs: Futs<ChanId>) {
    && ch1 == ch.(puts := ch1.puts, takes := ch1.takes)
    && LivePuts(ch1.puts, futs) == LivePuts(ch.puts, futs) && LiveTakes(ch1.takes, futs) == LiveTakes(ch.takes, futs)
  }

  ghost predicate AllTrimmed(chans: map<ChanId, Chan>, chans1: map<ChanId, Chan>, futs: Futs<ChanId>) {
    chans1.Keys == chans.Keys && forall c :: c in chans ==> Trimmed(chans[c], chans1[c], futs)
  }

  lemma {:induction false} AllLiveTakes(takes: seq<FutId>, futs: Futs<ChanId>)
    requires forall j :: 0 <= j < |takes| ==> Live(futs, takes[j])
    ensures LiveTakes(takes, futs) == takes
  {
    if takes != [] {
      AllLiveTakes(takes[1..], futs);
    }
  }

  lemma DiscardTrims(ch: Chan, futs: Futs<ChanId>)
    ensures Trimmed(ch, Discard(ch, futs), futs)
  {
    var ch1 := Discard(ch, futs);
    LivePutsIn(ch.puts, futs);
    LiveTakesIn(ch.takes, futs);
    forall j | 0 <= j < |ch1.puts| ensures Live(futs, ch1.puts[j].fut) {
      assert ch1.puts[j] in LivePuts(ch.puts, futs);
    }
    forall j | 0 <= j < |ch1.takes| ensures Live(futs, ch1.takes[j]) {
      assert ch1.takes[j] in LiveTakes(ch.takes, futs);
    }
    AllLivePuts(ch1.puts, futs);
    AllLiveTakes(ch1.takes, futs);
  }

  lemma TrimmedSame(ch: Chan, ch0: Chan, futs: Futs<ChanId>, p: Port<ChanId>, f: FutId)
    requires Trimmed(ch, ch0, futs) && f !in futs
    ensures ChannelRuns.Blocked(ch0, futs, p, f) <==> ChannelRuns.Blocked(ch, futs, p, f)
    ensures forall ch1, futs1, out :: PortDoes(p, ch0, futs, ch1, futs1, out) ==> PortDoes(p, ch, futs, ch1, futs1, out)
  {
    hide LivePuts, LiveTakes;
    var i := FirstLivePut(ch.puts, futs);
    var i0 := FirstLivePut(ch0.puts, futs);
    var j := FirstLiveTake(ch.takes, futs);
    var j0 := FirstLiveTake(ch0.takes, futs);
    assert NoPut(ch0.puts, futs) <==> NoPut(ch.puts, futs);
    assert NoTake(ch0.takes, futs) <==> NoTake(ch.takes, futs);
  }

  /** An operation that cannot proceed in the world as it is. */
  ghost predicate BlockedIn(w: World, p: Port<ChanId>)
    requires p.chan in w.chans
  {
    ChannelRuns.Blocked(w.chans[p.chan], w.futs, p, w.next)
  }

  /** An operation is ready exactly when it is not blocked; what it then does. */
  lemma TryPortDoes(w: World, p: Port<ChanId>)
    requires WorldOk(w) && p.chan in w.chans
    ensures var (w1, out) := TryPort(w, p);
      && (out.None? <==> BlockedIn(w, p))
      && w1.next == w.next && w1.chans.Keys == w.chans.Keys && w1.futs.Keys == w.futs.Keys
      && (forall c :: c in w.chans && c != p.chan ==> w1.chans[c] == w.chans[c])
      && (out.Some? ==> PortDoes(p, w.chans[p.chan], w.futs, w1.chans[p.chan], w1.futs, out.value))
      && (out.None? ==> w1.futs == w.futs && Trimmed(w.chans[p.chan], w1.chans[p.chan], w.futs))
  {
    hide ChanOk, Evolves, NoneLost, BalancedBut, LivePuts, LiveTakes, TryTake, TryPut, TakeDoes, PutDoes;
    SoundFresh(w);
    SoundChan(w, p.chan);
    DiscardTrims(w.chans[p.chan], w.futs);
    hide Sound;
    TryPortOk(w, p);
    assert TryPort(w, p).0.futs.Keys == w.futs.Keys by { EvolvesKeys(w.futs, TryPort(w, p).0.futs); }
    match p
    case TakeFrom(c) => TryTakeDoes(c, w.chans[c], w.futs);
    case PutTo(c, v) => TryPutDoes(c, w.chans[c], w.futs, v);
  }

  lemma EvolvesKeys(futs: Futs<ChanId>, futs1: Futs<ChanId>)
    requires Evolves(futs, futs1)
    ensures futs1.Keys == futs.Keys
  {
  }

  ghost predicate BlockedUpTo(w: World, ports: seq<Port<ChanId>>, n: nat)
    requires Known(w, ports)
  {
    forall l :: 0 <= l < n <= |ports| ==> BlockedIn(w, ports[l])
  }

  /** The operations are tried in order; the first one that was not blocked takes effect, and no other does. */
  lemma {:induction false} TryPortsFirst(w: World, now: World, ports: seq<Port<ChanId>>, i: nat)
    requires WorldOk(w) && WorldOk(now) && Known(w, ports) && Known(now, ports) && i <= |ports|
    requires now == w.(chans := now.chans) && AllTrimmed(w.chans, now.chans, w.futs) && BlockedUpTo(w, ports, i)
    ensures var (w1, k, out) := TryPorts(now, ports, i);
      && w1.next == w.next && w1.chans.Keys == w.chans.Keys && w1.futs.Keys == w.futs.Keys
      && (out.None? ==> BlockedUpTo(w, ports, |ports|) && w1.futs == w.futs && AllTrimmed(w.chans, w1.chans, w.futs))
      && (out.Some? ==>
        && k < |ports| && !BlockedIn(w, ports[k]) && BlockedUpTo(w, ports, k)
        && PortDoes(ports[k], w.chans[ports[k].chan], w.futs, w1.chans[ports[k].chan], w1.futs, out.value)
        && forall c :: c in w.chans && c != ports[k].chan ==> Trimmed(w.chans[c], w1.chans[c], w.futs))
    decreases |ports| - i
  {
    hide Sound, NoneLost, BalancedBut, Trimmed, PortDoes, TryPort;
    if i < |ports| {
      var p := ports[i];
      TryPortDoes(now, p);
      TryPortOk(now, p);
      SoundFresh(w);
      TrimmedSame(w.chans[p.chan], now.chans[p.chan], w.futs, p, w.next);
      var (w1, out) := TryPort(now, p);
      if out.None? {
        TrimmedTransitive(w.chans[p.chan], now.chans[p.chan], w1.chans[p.chan], w.futs);
        TryPortsFirst(w, w1, ports, i + 1);
      }
    }
  }

  lemma TrimmedTransitive(ch: Chan, ch1: Chan, ch2: Chan, futs: Futs<ChanId>)
    requires Trimmed(ch, ch1, futs) && Trimmed(ch1, ch2, futs)
    ensures Trimmed(ch, ch2, futs)
  {
  }

  lemma TrimmedSelf(chans: map<ChanId, Chan>, futs: Futs<ChanId>)
    ensures AllTrimmed(chans, chans, futs)
  {
  }

  // ------------------------------------------------------------------
  // One selection

  /** No value of a channel moved. */
  ghost predicate SameContents(ch: Chan, ch1: Chan) {
    && ch1.buffer == ch.buffer && ch1.closed == ch.closed && ch1.capacity == ch.capacity && ch1.policy == ch.policy
    && ch1.arrived == ch.arrived && ch1.delivered == ch.delivered
  }

  /** A new selection `f` with the given operations, in the given state. */
  ghost predicate Numbered(w: World, w1: World, ports: seq<Port<ChanId>>) {
    && w1.chans.Keys == w.chans.Keys && w1.next == w.next + 1 && w.next !in w.futs
    && w1.futs.Keys == w.futs.Keys + {w.next} && w1.futs[w.next].ports == ports
  }

  /** Nothing moved, and no other selection changed. */
  ghost predicate Quiet(w: World, w1: World, ports: seq<Port<ChanId>>) {
    && Numbered(w, w1, ports) && w1.futs - {w.next} == w.futs
    && forall c :: c in w.chans ==> SameContents(w.chans[c], w1.chans[c])
  }

  /** One operation took effect at once, on its own channel only, and gave the answer. */
  ghost predicate Answers(w: World, w1: World, ports: seq<Port<ChanId>>, k: nat)
    requires k < |ports| && ports[k].chan in w.chans
  {
    var (c, f) := (ports[k].chan, w.next);
    && Numbered(w, w1, ports)
    && w1.futs[f].state.Resolved? && w1.futs[f].state.chan == c
    && PortDoes(ports[k], w.chans[c], w.futs, w1.chans[c], w1.futs - {f}, w1.futs[f].state.outcome)
    && forall d :: d in w.chans && d != c ==> SameContents(w.chans[d], w1.chans[d])
  }

  lemma SelectBlocked(w: World, ports: seq<Port<ChanId>>, wait: bool)
    requires WorldOk(w) && Known(w, ports) && BlockedUpTo(w, ports, |ports|)
    ensures var w1 := SelectStep(w, ports, wait);
      Quiet(w, w1, ports) && w1.futs[w.next].state == if wait then Pending else Defaulted
  {
    hide Sound, NoneLost, BalancedBut, PortDoes, TryPorts, ChannelRuns.Blocked, LivePuts, LiveTakes, AllTrimmed;
    hide SameContents;
    SoundFresh(w);
    TrimmedSelf(w.chans, w.futs);
    TryPortsFirst(w, w, ports, 0);
    var tried := TryPorts(w, ports, 0);
    var w1 := tried.0;
    assert Known(w1, ports) && tried.2.None?;
    TrimmedContents(w.chans, w1.chans, w.futs);
    EnqueueAllContents(w1.chans, ports, |ports|, w.next);
    SameContentsTransitive(w.chans, w1.chans, EnqueueAll(w1.chans, ports, |ports|, w.next));
    assert w.futs[w.next := SelectStep(w, ports, wait).futs[w.next]] - {w.next} == w.futs;
  }

  lemma SelectReady(w: World, ports: seq<Port<ChanId>>, wait: bool, k: nat)
    requires WorldOk(w) && Known(w, ports) && k < |ports| && BlockedUpTo(w, ports, k) && !BlockedIn(w, ports[k])
    ensures Answers(w, SelectStep(w, ports, wait), ports, k)
  {
    hide Sound, NoneLost, BalancedBut, PortDoes, TryPorts, ChannelRuns.Blocked, LivePuts, LiveTakes, AllTrimmed;
    hide Trimmed, SameContents;
    SoundFresh(w);
    TrimmedSelf(w.chans, w.futs);
    TryPortsFirst(w, w, ports, 0);
    var tried := TryPorts(w, ports, 0);
    var (w1, i) := (tried.0, tried.1);
    assert tried.2.Some? && i == k;
    assert SelectStep(w, ports, wait).futs - {w.next} == w1.futs;
    forall d | d in w.chans && d != ports[k].chan ensures SameContents(w.chans[d], w1.chans[d]) {
      TrimmedContent(w.chans[d], w1.chans[d], w.futs);
    }
  }

  /**
    Every put, take, offer, poll or `alts`: the first operation that is not
    blocked takes effect at once. Exactly when all are blocked nothing moves, and
    the selection waits, or gives up when it may not wait.
  */
  lemma SelectDoes(w: World, ports: seq<Port<ChanId>>, wait: bool)
    requires WorldOk(w) && Known(w, ports) && (wait ==> ports != [])
    ensures var w1 := Step(w, Select(ports, wait));
      && Numbered(w, w1, ports)
      && (w1.futs[w.next].state == Defaulted <==> !wait && BlockedUpTo(w, ports, |ports|))
      && (w1.futs[w.next].state == Pending <==> wait && BlockedUpTo(w, ports, |ports|))
      && (BlockedUpTo(w, ports, |ports|) ==> Quiet(w, w1, ports))
      && forall k :: 0 <= k < |ports| && BlockedUpTo(w, ports, k) && !BlockedIn(w, ports[k]) ==>
        Answers(w, w1, ports, k)
  {
    hide WorldOk, Quiet, PortDoes, SelectStep, ChannelRuns.Blocked, SameContents;
    var w1 := Step(w, Select(ports, wait));
    if BlockedUpTo(w, ports, |ports|) {
      SelectBlocked(w, ports, wait);
      assert Numbered(w, w1, ports) by { QuietNumbered(w, w1, ports); }
    } else {
      var k := FirstReady(w, ports, |ports|);
      SelectReady(w, ports, wait, k);
    }
    forall k | 0 <= k < |ports| && BlockedUpTo(w, ports, k) && !BlockedIn(w, ports[k])
      ensures Answers(w, w1, ports, k)
    {
      SelectReady(w, ports, wait, k);
    }
  }

  /** Without such a channel, or with nothing to wait for, the call raises and changes nothing. */
  lemma SelectRefused(w: World, ports: seq<Port<ChanId>>, wait: bool)
    requires (exists i :: 0 <= i < |ports| && ports[i].chan !in w.chans) || (wait && ports == [])
    ensures Step(w, Select(ports, wait)) == w
  {
  }

  lemma QuietNumbered(w: World, w1: World, ports: seq<Port<ChanId>>)
    requires Quiet(w, w1, ports)
    ensures Numbered(w, w1, ports)
  {
  }

  lemma {:induction false} FirstReady(w: World, ports: seq<Port<ChanId>>, n: nat) returns (k: nat)
    requires Known(w, ports) && n <= |ports| && !BlockedUpTo(w, ports, n)
    ensures k < n && BlockedUpTo(w, ports, k) && !BlockedIn(w, ports[k])
  {
    hide ChannelRuns.Blocked;
    if BlockedUpTo(w, ports, n - 1) {
      k := n - 1;
    } else {
      k := FirstReady(w, ports, n - 1);
    }
  }

  lemma TrimmedContent(ch: Chan, ch1: Chan, futs: Futs<ChanId>)
    requires Trimmed(ch, ch1, futs)
    ensures SameContents(ch, ch1)
  {
  }

  lemma SameContentsTransitive(a: map<ChanId, Chan>, b: map<ChanId, Chan>, d: map<ChanId, Chan>)
    requires a.Keys == b.Keys == d.Keys
    requires (forall c :: c in a ==> SameContents(a[c], b[c])) && forall c :: c in b ==> SameContents(b[c], d[c])
    ensures forall c :: c in a ==> SameContents(a[c], d[c])
  {
    forall c | c in a ensures SameContents(a[c], d[c]) {
      assert SameContents(a[c], b[c]) && SameContents(b[c], d[c]);
    }
  }

  lemma TrimmedContents(chans: map<ChanId, Chan>, chans1: map<ChanId, Chan>, futs: Futs<ChanId>)
    requires AllTrimmed(chans, chans1, futs)
    ensures forall c :: c in chans ==> SameContents(chans[c], chans1[c])
  {
    forall c | c in chans ensures SameContents(chans[c], chans1[c]) {
      assert Trimmed(chans[c], chans1[c], futs);
    }
  }

  lemma {:induction false} EnqueueAllContents(chans: map<ChanId, Chan>, ports: seq<Port<ChanId>>, n: nat, f: FutId)
    requires n <= |ports| && PortsIn(chans, ports)
    ensures forall c :: c in chans ==> SameContents(chans[c], EnqueueAll(chans, ports, n, f)[c])
  {
    if n > 0 {
      EnqueueAllContents(chans, ports, n - 1, f);
    }
  }

  /** The same for every world that a run can reach. */
  lemma SelectInRun(run: seq<Event>, ports: seq<Port<ChanId>>, wait: bool)
    requires Known(Exec(Start(), run), ports) && (wait ==> ports != [])
    ensures var (w, w1) := (Exec(Start(), run), Exec(Start(), run + [Select(ports, wait)]));
      && Numbered(w, w1, ports)
      && (w1.futs[w.next].state == Defaulted <==> !wait && BlockedUpTo(w, ports, |ports|))
      && (w1.futs[w.next].state == Pending <==> wait && BlockedUpTo(w, ports, |ports|))
      && (BlockedUpTo(w, ports, |ports|) ==> Quiet(w, w1, ports))
      && forall k :: 0 <= k < |ports| && BlockedUpTo(w, ports, k) && !BlockedIn(w, ports[k]) ==>
        Answers(w, w1, ports, k)
  {
    hide WorldOk, Quiet, BlockedIn, Answers, Step, Admitted;
    var longer := run + [Select(ports, wait)];
    assert longer[..|longer| - 1] == run;
    RunOk(run);
    SelectDoes(Exec(Start(), run), ports, wait);
  }

  // ------------------------------------------------------------------
  // Closing and cancelling

  lemma {:induction false} ResolveAllDoes(c: ChanId, fs: seq<FutId>, futs: Futs<ChanId>, out: Outcome)
    ensures var futs1 := ResolveAll(c, fs, futs, out);
      && futs1.Keys == futs.Keys
      && forall f :: f in futs ==>
        && futs1[f].ports == futs[f].ports
        && (Live(futs, f) && f in fs ==> futs1[f].state == Resolved(out, c) && futs1[f].effects == futs[f].effects)
        && (!Live(futs, f) || f !in fs ==> futs1[f] == futs[f])
  {
    if fs != [] {
      var futs0 := if Live(futs, fs[0]) then Resolve(futs, fs[0], out, c, []) else futs;
      ResolveAllDoes(c, fs[1..], futs0, out);
      assert fs == [fs[0]] + fs[1..];
    }
  }

  /** A waiting selection with a put to `c` among its operations. */
  ghost predicate WaitsToPut(w: World, f: FutId, c: ChanId) {
    Live(w.futs, f) && exists v :: PutTo(c, v) in w.futs[f].ports
  }

  predicate WaitsToTake(w: World, f: FutId, c: ChanId) { Live(w.futs, f) && TakeFrom(c) in w.futs[f].ports }

  /** Closing answers false to every put waiting on the channel, nil to every other take, and touches nothing else. */
  lemma ShutDoes(w: World, c: ChanId)
    requires WorldOk(w) && c in w.chans
    ensures var w1 := Step(w, Shut(c));
      && w1.next == w.next && w1.futs.Keys == w.futs.Keys && w1.chans.Keys == w.chans.Keys
      && w1.chans[c].closed && w1.chans[c].buffer == w.chans[c].buffer
      && (forall d :: d in w.chans && d != c ==> w1.chans[d] == w.chans[d])
      && forall f :: f in w.futs ==>
        && (WaitsToPut(w, f, c) ==> w1.futs[f].state == Resolved(PutDone(false), c))
        && (WaitsToTake(w, f, c) && !WaitsToPut(w, f, c) ==> w1.futs[f].state == Resolved(Drained, c))
        && (!WaitsToPut(w, f, c) && !WaitsToTake(w, f, c) ==> w1.futs[f] == w.futs[f])
  {
    var (ch, futs) := (w.chans[c], w.futs);
    var w1 := Step(w, Shut(c));
    var waiting := OfferFuts(LivePuts(ch.puts, futs));
    var futs1 := ResolveAll(c, waiting, futs, PutDone(false));
    ResolveAllDoes(c, waiting, futs, PutDone(false));
    ResolveAllDoes(c, LiveTakes(ch.takes, futs), futs1, Drained);
    LiveTakesIn(ch.takes, futs);
    forall f | f in futs
      ensures f in waiting <==> WaitsToPut(w, f, c)
      ensures f in LiveTakes(ch.takes, futs) <==> WaitsToTake(w, f, c)
      ensures WaitsToPut(w, f, c) || WaitsToTake(w, f, c) ==> !ch.closed
      ensures WaitsToTake(w, f, c) ==> ch.buffer == []
    {
      WaitingOn(w, c, f);
    }
    hide WorldOk, LivePuts, LiveTakes, ResolveAll;
  }

  lemma WaitingOn(w: World, c: ChanId, f: FutId)
    requires WorldOk(w) && c in w.chans && f in w.futs
    ensures f in OfferFuts(LivePuts(w.chans[c].puts, w.futs)) <==> WaitsToPut(w, f, c)
    ensures f in LiveTakes(w.chans[c].takes, w.futs) <==> WaitsToTake(w, f, c)
    ensures WaitsToPut(w, f, c) || WaitsToTake(w, f, c) ==> !w.chans[c].closed
    ensures WaitsToTake(w, f, c) ==> w.chans[c].buffer == []
  {
    var (ch, futs) := (w.chans[c], w.futs);
    LivePutsIn(ch.puts, futs);
    LiveTakesIn(ch.takes, futs);
    SoundChan(w, c);
    hide LivePuts, LiveTakes, BalancedBut, Conserves, Sound;
    PutsWaiting(w, c, f, LivePuts(ch.puts, futs));
    if WaitsToTake(w, f, c) {
      var k :| 0 <= k < |futs[f].ports| && futs[f].ports[k] == TakeFrom(c);
      assert Queued(ch, TakeFrom(c), f);
    }
  }

  lemma PutsWaiting(w: World, c: ChanId, f: FutId, live: seq<Offer>)
    requires NoneLost(w) && c in w.chans && f in w.futs && ChanOk(c, w.chans[c], w.futs)
    requires forall o :: o in live <==> o in w.chans[c].puts && Live(w.futs, o.fut)
    ensures f in OfferFuts(live) <==> WaitsToPut(w, f, c)
    ensures WaitsToPut(w, f, c) ==> !w.chans[c].closed
  {
    var (ch, futs) := (w.chans[c], w.futs);
    hide Conserves, NoMatch, TakesOk;
    if f in OfferFuts(live) {
      var j :| 0 <= j < |live| && OfferFuts(live)[j] == f;
      assert live[j] in live;
    }
    if WaitsToPut(w, f, c) {
      var v :| PutTo(c, v) in futs[f].ports;
      var k :| 0 <= k < |futs[f].ports| && futs[f].ports[k] == PutTo(c, v);
      assert Queued(ch, PutTo(c, v), f);
      assert Offer(v, f) in live;
      var j :| 0 <= j < |live| && live[j] == Offer(v, f);
      assert OfferFuts(live)[j] == f;
    }
  }

  /** A waiting selection that is cancelled never moves a value, and its cancelling changes nothing else. */
  lemma CancelledForGood(run: seq<Event>, f: FutId, more: seq<Event>)
    requires Live(Exec(Start(), run).futs, f)
    ensures var (w, w1) := (Exec(Start(), run), Exec(Start(), run + [Cancel(f)]));
      && w1.chans == w.chans && w1.next == w.next && w1.futs - {f} == w.futs - {f} && f in w1.futs
      && f in Exec(w1, more).futs && Exec(w1, more).futs[f] == Fut(Cancelled, w.futs[f].ports, [])
  {
    var longer := run + [Cancel(f)];
    assert longer[..|longer| - 1] == run;
    RunOk(run);
    RunOk(longer);
    RunLasts(Exec(Start(), longer), more);
    assert FutOk(Exec(Start(), run).futs[f]);
  }
}
