/**
  One channel and the futures of the event loop
  (src/basilisp/concurrent_channel.py:21-205).

  Everything between two awaits is one atomic call; each is a function here.
  `arrived`, `entered`, `delivered` and `removed` are history: what was
  accepted, what was accepted while the buffer had room, what was handed to
  takers, and what left the channel at its front.
*/
module Channel {
  import opened Prelude

  /** A channel value; nil is not one. */
  type V(==, !new)
  type FutId = nat

  datatype Port<K> = TakeFrom(chan: K) | PutTo(chan: K, value: V)

  datatype Outcome = Took(value: V) | Drained | PutDone(ok: bool)

  datatype FutState<K> = Pending | Resolved(outcome: Outcome, chan: K) | Defaulted | Cancelled

  /** A value moved through an operation of a waiting future. */
  datatype Effect<K> = Got(chan: K, value: V) | Gave(chan: K, value: V)

  /** A future, the operations waiting on it, and the ones that took effect. */
  datatype Fut<K> = Fut(state: FutState<K>, ports: seq<Port<K>>, effects: seq<Effect<K>>)

  type Futs<K> = map<FutId, Fut<K>>

  datatype Policy = Fixed | Sliding | Dropping

  datatype Offer = Offer(value: V, fut: FutId)

  datatype Chan = Chan(
    capacity: nat,
    policy: Policy,
    closed: bool,
    buffer: seq<V>,
    puts: seq<Offer>,
    takes: seq<FutId>,
    arrived: seq<V>,
    entered: seq<V>,
    delivered: seq<V>,
    removed: seq<V>)
  {
    predicate Full() { |buffer| >= capacity }

    /** A value is accepted. */
    function Arrive(v: V): Chan {
      this.(arrived := arrived + [v], entered := if Full() then entered else entered + [v])
    }

    /** A value leaves at the front and reaches a taker. */
    function Deliver(v: V): Chan {
      this.(delivered := delivered + [v], removed := removed + [v])
    }

    /** A value passes through without entering the buffer. */
    function Pass(v: V): Chan {
      this.(arrived := arrived + [v], entered := entered + [v], delivered := delivered + [v], removed := removed + [v])
    }
  }

  function NewChan(capacity: nat, policy: Policy): Chan {
    Chan(capacity, policy, false, [], [], [], [], [], [], [])
  }

  predicate Live<K>(futs: Futs<K>, f: FutId) { f in futs && futs[f].state.Pending? }

  function Resolve<K>(futs: Futs<K>, f: FutId, out: Outcome, c: K, effects: seq<Effect<K>>): Futs<K>
    requires f in futs
  {
    futs[f := futs[f].(state := Resolved(out, c), effects := futs[f].effects + effects)]
  }

  function LivePuts<K>(puts: seq<Offer>, futs: Futs<K>): seq<Offer> {
    if puts == [] then []
    else (if Live(futs, puts[0].fut) then [puts[0]] else []) + LivePuts(puts[1..], futs)
  }

  function LiveTakes<K>(takes: seq<FutId>, futs: Futs<K>): seq<FutId> {
    if takes == [] then []
    else (if Live(futs, takes[0]) then [takes[0]] else []) + LiveTakes(takes[1..], futs)
  }

  /** `_discard_inactive`. */
  function Discard<K>(ch: Chan, futs: Futs<K>): Chan {
    ch.(puts := LivePuts(ch.puts, futs), takes := LiveTakes(ch.takes, futs))
  }

  /** The loop of `_try_put` over waiting takes. */
  function HandOver<K>(c: K, ch: Chan, futs: Futs<K>, v: V): (Chan, Futs<K>, bool)
    decreases |ch.takes|
  {
    if ch.takes == [] then (ch, futs, false)
    else
      var f := ch.takes[0];
      var ch1 := ch.(takes := ch.takes[1..]);
      if Live(futs, f) then (ch1.Pass(v), Resolve(futs, f, Took(v), c, [Got(c, v)]), true)
      else HandOver(c, ch1, futs, v)
  }

  datatype PutResult = Accepted | Refused | Blocked

  /** `_try_put`. */
  function TryPut<K>(c: K, ch: Chan, futs: Futs<K>, v: V): (Chan, Futs<K>, PutResult) {
    if ch.closed then (ch, futs, Refused)
    else
      var (ch1, futs1, handed) := HandOver(c, Discard(ch, futs), futs, v);
      if handed then (ch1, futs1, Accepted)
      else if ch1.capacity == 0 then (ch1, futs1, Blocked)
      else if |ch1.buffer| < ch1.capacity then (ch1.Arrive(v).(buffer := ch1.buffer + [v]), futs1, Accepted)
      else if ch1.policy.Sliding? && ch1.buffer != [] then
        (ch1.Arrive(v).(removed := ch1.removed + [ch1.buffer[0]], buffer := ch1.buffer[1..] + [v]), futs1, Accepted)
      else if ch1.policy.Dropping? then (ch1.Arrive(v), futs1, Accepted)
      else (ch1, futs1, Blocked)
  }

  /** The loop of `_fill_buffer`. */
  function Fill<K>(c: K, ch: Chan, futs: Futs<K>): (Chan, Futs<K>)
    decreases |ch.puts|
  {
    if ch.puts == [] || |ch.buffer| >= ch.capacity then (ch, futs)
    else
      var o := ch.puts[0];
      var ch1 := ch.(puts := ch.puts[1..]);
      if Live(futs, o.fut) then
        Fill(c, ch1.Arrive(o.value).(buffer := ch1.buffer + [o.value]),
             Resolve(futs, o.fut, PutDone(true), c, [Gave(c, o.value)]))
      else Fill(c, ch1, futs)
  }

  /** The loop of `_try_take` over waiting puts: the value taken, if any. */
  function TakeOver<K>(c: K, ch: Chan, futs: Futs<K>): (Chan, Futs<K>, Option<V>)
    decreases |ch.puts|
  {
    if ch.puts == [] then (ch, futs, None)
    else
      var o := ch.puts[0];
      var ch1 := ch.(puts := ch.puts[1..]);
      if Live(futs, o.fut) then
        (ch1.Pass(o.value), Resolve(futs, o.fut, PutDone(true), c, [Gave(c, o.value)]), Some(o.value))
      else TakeOver(c, ch1, futs)
  }

  datatype TakeResult = Taken(value: V) | Nil | NotReady

  /** `_try_take`. */
  function TryTake<K>(c: K, ch: Chan, futs: Futs<K>): (Chan, Futs<K>, TakeResult) {
    var ch0 := Discard(ch, futs);
    if ch0.buffer != [] then
      var v := ch0.buffer[0];
      var ch1 := ch0.Deliver(v).(buffer := ch0.buffer[1..]);
      var (ch2, futs2) := Fill(c, Discard(ch1, futs), futs);
      (ch2, futs2, Taken(v))
    else
      var (ch1, futs1, got) := TakeOver(c, ch0, futs);
      if got.Some? then (ch1, futs1, Taken(got.value))
      else (ch1, futs1, if ch1.closed then Nil else NotReady)
  }

  /** Resolves every future still pending in a list, without any value moving. */
  function ResolveAll<K>(c: K, fs: seq<FutId>, futs: Futs<K>, out: Outcome): Futs<K> {
    if fs == [] then futs
    else ResolveAll(c, fs[1..], if Live(futs, fs[0]) then Resolve(futs, fs[0], out, c, []) else futs, out)
  }

  function OfferFuts(puts: seq<Offer>): (fs: seq<FutId>)
    ensures |fs| == |puts|
    ensures forall i :: 0 <= i < |puts| ==> fs[i] == puts[i].fut
  {
    seq(|puts|, i requires 0 <= i < |puts| => puts[i].fut)
  }

  /** `close`. */
  function Close<K>(c: K, ch: Chan, futs: Futs<K>): (Chan, Futs<K>) {
    if ch.closed then (ch, futs)
    else
      var ch0 := Discard(ch.(closed := true), futs);
      var futs1 := ResolveAll(c, OfferFuts(ch0.puts), futs, PutDone(false));
      var ch1 := ch0.(puts := []);
      if ch1.buffer != [] then (ch1, futs1)
      else (ch1.(takes := []), ResolveAll(c, ch1.takes, futs1, Drained))
  }

  // ------------------------------------------------------------------
  // Selections over several channels

  /** All channels and futures of one event loop; `next` numbers the next selection. */
  datatype Net<K> = Net(chans: map<K, Chan>, futs: Futs<K>, next: nat)

  /** One operation tried without waiting. */
  function TryPort<K>(w: Net<K>, p: Port<K>): (Net<K>, Option<Outcome>)
    requires p.chan in w.chans
  {
    match p
    case TakeFrom(c) =>
      var (ch, futs, r) := TryTake(c, w.chans[c], w.futs);
      (w.(chans := w.chans[c := ch], futs := futs),
       match r case Taken(v) => Some(Took(v)) case Nil => Some(Drained) case NotReady => None)
    case PutTo(c, v) =>
      var (ch, futs, r) := TryPut(c, w.chans[c], w.futs, v);
      (w.(chans := w.chans[c := ch], futs := futs),
       match r case Accepted => Some(PutDone(true)) case Refused => Some(PutDone(false)) case Blocked => None)
  }

  predicate PortsIn<K>(chans: map<K, Chan>, ports: seq<Port<K>>) {
    forall i :: 0 <= i < |ports| ==> ports[i].chan in chans
  }

  predicate Known<K>(w: Net<K>, ports: seq<Port<K>>) { PortsIn(w.chans, ports) }

  /** The operations from `i` on, tried in order until one is ready: its index and outcome. */
  function TryPorts<K>(w: Net<K>, ports: seq<Port<K>>, i: nat): (Net<K>, nat, Option<Outcome>)
    requires Known(w, ports) && i <= |ports|
    decreases |ports| - i
  {
    if i == |ports| then (w, i, None)
    else
      var (w1, out) := TryPort(w, ports[i]);
      if out.Some? then (w1, i, out) else TryPorts(w1, ports, i + 1)
  }

  function Enqueue<K>(ch: Chan, p: Port<K>, f: FutId): Chan {
    match p
    case TakeFrom(_) => ch.(takes := ch.takes + [f])
    case PutTo(_, v) => ch.(puts := ch.puts + [Offer(v, f)])
  }

  /** The first `n` operations queued for one selection. */
  function EnqueueAll<K>(chans: map<K, Chan>, ports: seq<Port<K>>, n: nat, f: FutId): (r: map<K, Chan>)
    requires n <= |ports| && PortsIn(chans, ports)
    ensures r.Keys == chans.Keys
  {
    if n == 0 then chans
    else
      var before := EnqueueAll(chans, ports, n - 1, f);
      var p := ports[n - 1];
      before[p.chan := Enqueue(before[p.chan], p, f)]
  }

  function EffectOf<K>(p: Port<K>, out: Outcome): seq<Effect<K>> {
    match (p, out)
    case (TakeFrom(c), Took(v)) => [Got(c, v)]
    case (PutTo(c, v), PutDone(true)) => [Gave(c, v)]
    case _ => []
  }

  /** `alts`, and with one port `put`, `take`, `offer` and `poll`. */
  function SelectStep<K>(w: Net<K>, ports: seq<Port<K>>, wait: bool): Net<K>
    requires Known(w, ports)
  {
    var f := w.next;
    var (w1, i, out) := TryPorts(w, ports, 0);
    if out.Some? then
      if i < |ports| then
        var fut := Fut(Resolved(out.value, ports[i].chan), ports, EffectOf(ports[i], out.value));
        w1.(futs := w1.futs[f := fut], next := f + 1)
      else w1
    else if !wait then w1.(futs := w1.futs[f := Fut(Defaulted, ports, [])], next := f + 1)
    else if Known(w1, ports) then
      Net(EnqueueAll(w1.chans, ports, |ports|, f), w1.futs[f := Fut(Pending, ports, [])], f + 1)
    else w1
  }

  // ------------------------------------------------------------------
  // What every channel keeps

  predicate Subsequence(s: seq<V>, t: seq<V>) {
    s == [] ||
    (t != [] &&
     var (s1, t1) := (s[..|s| - 1], t[..|t| - 1]);
     (s[|s| - 1] == t[|t| - 1] && Subsequence(s1, t1)) || Subsequence(s, t1))
  }

  lemma SubsequenceGrows(s: seq<V>, t: seq<V>, v: V)
    ensures Subsequence(s, t) ==> Subsequence(s, t + [v]) && Subsequence(s + [v], t + [v])
  {
    assert (s + [v])[..|s|] == s && (t + [v])[..|t|] == t;
  }

  /** What entered the channel is what left it followed by what it holds, as its policy promises. */
  predicate Kept(policy: Policy, arrived: seq<V>, entered: seq<V>, delivered: seq<V>, removed: seq<V>, buffer: seq<V>) {
    match policy
    case Fixed => arrived == delivered + buffer && removed == delivered
    case Sliding => arrived == removed + buffer && Subsequence(delivered, removed)
    case Dropping => entered == delivered + buffer && removed == delivered && Subsequence(entered, arrived)
  }

  predicate Conserves(ch: Chan) {
    Kept(ch.policy, ch.arrived, ch.entered, ch.delivered, ch.removed, ch.buffer)
  }

  ghost predicate ChanOk<K>(c: K, ch: Chan, futs: Futs<K>) {
    && |ch.buffer| <= ch.capacity
    && (ch.capacity == 0 ==> ch.policy.Fixed?)
    && Conserves(ch)
    && TakesOk(c, ch, futs) && PutsOk(c, ch, futs) && NoMatch(ch, futs)
  }

  /** A waiting take means an open channel with nothing to take. */
  ghost predicate TakesOk<K>(c: K, ch: Chan, futs: Futs<K>) {
    forall i :: 0 <= i < |ch.takes| ==>
      && ch.takes[i] in futs && TakeFrom(c) in futs[ch.takes[i]].ports
      && (Live(futs, ch.takes[i]) ==> ch.buffer == [] && !ch.closed)
  }

  /** A waiting put means an open channel with a full buffer. */
  ghost predicate PutsOk<K>(c: K, ch: Chan, futs: Futs<K>) {
    forall j :: 0 <= j < |ch.puts| ==>
      && ch.puts[j].fut in futs && PutTo(c, ch.puts[j].value) in futs[ch.puts[j].fut].ports
      && (Live(futs, ch.puts[j].fut) ==> !ch.closed && |ch.buffer| == ch.capacity && ch.policy.Fixed?)
  }

  /** A waiting take and a waiting put only meet when they belong to one selection. */
  ghost predicate NoMatch<K>(ch: Chan, futs: Futs<K>) {
    forall i, j :: 0 <= i < |ch.takes| && 0 <= j < |ch.puts| && Live(futs, ch.takes[i]) && Live(futs, ch.puts[j].fut)
      ==> ch.takes[i] == ch.puts[j].fut
  }

  /** A future was won at most once, by one of its operations, and exactly that operation moved a value. */
  predicate FutOk<K(==)>(fut: Fut<K>) {
    match fut.state
    case Resolved(Took(v), c) => fut.effects == [Got(c, v)] && TakeFrom(c) in fut.ports
    case Resolved(PutDone(true), c) =>
      && |fut.effects| == 1 && fut.effects[0].Gave? && fut.effects[0].chan == c
      && PutTo(c, fut.effects[0].value) in fut.ports
    case _ => fut.effects == []
  }

  /** Futures only move from pending to done, each by a move that keeps `FutOk`. */
  ghost predicate Evolves<K>(futs: Futs<K>, futs1: Futs<K>) {
    && futs1.Keys == futs.Keys
    && forall f :: f in futs ==>
      && futs1[f].ports == futs[f].ports
      && (futs1[f] == futs[f] ||
          (futs[f].state.Pending? && !futs1[f].state.Pending? && (FutOk(futs[f]) ==> FutOk(futs1[f]))))
  }

  /** What holds of a channel survives any progress of the futures. */
  lemma ChanOkEvolves<K>(c: K, ch: Chan, futs: Futs<K>, futs1: Futs<K>)
    requires ChanOk(c, ch, futs) && Evolves(futs, futs1)
    ensures ChanOk(c, ch, futs1)
  {
  }

  lemma {:induction false} LivePutsIn<K>(puts: seq<Offer>, futs: Futs<K>)
    ensures forall o :: o in LivePuts(puts, futs) <==> o in puts && Live(futs, o.fut)
  {
    if puts != [] {
      LivePutsIn(puts[1..], futs);
      assert puts == [puts[0]] + puts[1..];
    }
  }

  lemma {:induction false} LiveTakesIn<K>(takes: seq<FutId>, futs: Futs<K>)
    ensures forall f :: f in LiveTakes(takes, futs) <==> f in takes && Live(futs, f)
  {
    if takes != [] {
      LiveTakesIn(takes[1..], futs);
      assert takes == [takes[0]] + takes[1..];
    }
  }

  lemma DiscardOk<K>(c: K, ch: Chan, futs: Futs<K>)
    requires ChanOk(c, ch, futs)
    ensures ChanOk(c, Discard(ch, futs), futs)
    ensures forall i :: 0 <= i < |Discard(ch, futs).takes| ==> Live(futs, Discard(ch, futs).takes[i])
    ensures forall j :: 0 <= j < |Discard(ch, futs).puts| ==> Live(futs, Discard(ch, futs).puts[j].fut)
  {
    LivePutsIn(ch.puts, futs);
    LiveTakesIn(ch.takes, futs);
    var ch1 := Discard(ch, futs);
    forall i | 0 <= i < |ch1.takes| ensures ch1.takes[i] in ch.takes && Live(futs, ch1.takes[i]) {
      assert ch1.takes[i] in LiveTakes(ch.takes, futs);
    }
    forall j | 0 <= j < |ch1.puts| ensures ch1.puts[j] in ch.puts && Live(futs, ch1.puts[j].fut) {
      assert ch1.puts[j] in LivePuts(ch.puts, futs);
    }
  }

  /** All operations still queued on a channel can still win. */
  ghost predicate AllLive<K>(ch: Chan, futs: Futs<K>) {
    && (forall i :: 0 <= i < |ch.takes| ==> Live(futs, ch.takes[i]))
    && (forall j :: 0 <= j < |ch.puts| ==> Live(futs, ch.puts[j].fut))
  }

  lemma HandOverOk<K>(c: K, ch: Chan, futs: Futs<K>, v: V)
    requires ChanOk(c, ch, futs) && AllLive(ch, futs) && !ch.closed
    ensures var (ch1, futs1, handed) := HandOver(c, ch, futs, v);
      && ChanOk(c, ch1, futs1) && Evolves(futs, futs1)
      && (handed <==> ch.takes != [])
      && (!handed ==> ch1 == ch && futs1 == futs)
  {
    hide Kept;
    if ch.takes != [] {
      var f := ch.takes[0];
      assert Live(futs, f) && ch.buffer == [];
      PassConserves(ch, v);
      var (ch1, futs1, _) := HandOver(c, ch, futs, v);
      assert futs1 == Resolve(futs, f, Took(v), c, [Got(c, v)]);
      assert Evolves(futs, futs1);
      ChanOkEvolves(c, ch, futs, futs1);
      assert forall i :: 0 <= i < |ch1.takes| ==> ch1.takes[i] == ch.takes[i + 1];
    }
  }

  /** The three ways a value without a waiting take is accepted. */
  lemma ArrivalConserves(ch: Chan, v: V)
    requires Conserves(ch) && |ch.buffer| <= ch.capacity
    ensures |ch.buffer| < ch.capacity ==> Conserves(ch.Arrive(v).(buffer := ch.buffer + [v]))
    ensures ch.policy.Sliding? && ch.buffer != [] ==>
      Conserves(ch.Arrive(v).(removed := ch.removed + [ch.buffer[0]], buffer := ch.buffer[1..] + [v]))
    ensures ch.policy.Dropping? && ch.Full() ==> Conserves(ch.Arrive(v))
  {
    hide Subsequence;
    match ch.policy
    case Fixed => EndEnters(ch.delivered, ch.buffer, v);
    case Dropping =>
      SubsequenceGrows(ch.entered, ch.arrived, v);
      EndEnters(ch.delivered, ch.buffer, v);
    case Sliding =>
      EndEnters(ch.removed, ch.buffer, v);
      if ch.buffer != [] {
        SubsequenceGrows(ch.delivered, ch.removed, ch.buffer[0]);
        FrontLeaves(ch.removed, ch.buffer);
        EndEnters(ch.removed + [ch.buffer[0]], ch.buffer[1..], v);
      }
  }

  /** A value handed over through an empty buffer. */
  lemma PassConserves(ch: Chan, v: V)
    requires Conserves(ch) && ch.buffer == []
    ensures Conserves(ch.Pass(v))
  {
    hide Subsequence;
    SubsequenceGrows(ch.entered, ch.arrived, v);
    SubsequenceGrows(ch.delivered, ch.removed, v);
  }

  /** A value taken at the front of the buffer. */
  lemma FrontConserves(ch: Chan)
    requires Conserves(ch) && ch.buffer != []
    ensures Conserves(ch.Deliver(ch.buffer[0]).(buffer := ch.buffer[1..]))
  {
    hide Subsequence;
    SubsequenceGrows(ch.delivered, ch.removed, ch.buffer[0]);
    FrontLeaves(ch.delivered, ch.buffer);
    FrontLeaves(ch.removed, ch.buffer);
  }

  lemma EndEnters(out: seq<V>, buffer: seq<V>, v: V)
    ensures out + buffer + [v] == out + (buffer + [v])
  {
  }

  lemma FrontLeaves(out: seq<V>, buffer: seq<V>)
    requires buffer != []
    ensures out + buffer == out + [buffer[0]] + buffer[1..]
  {
  }

  lemma TryPutOk<K>(c: K, ch: Chan, futs: Futs<K>, v: V)
    requires ChanOk(c, ch, futs)
    ensures var (ch1, futs1, r) := TryPut(c, ch, futs, v);
      && ChanOk(c, ch1, futs1) && Evolves(futs, futs1)
      && (r.Refused? <==> ch.closed)
      && (r.Blocked? ==>
        && futs1 == futs && ch1 == Discard(ch, futs) && ch1.takes == []
        && !ch1.closed && |ch1.buffer| == ch1.capacity && ch1.policy.Fixed?)
  {
    hide Kept;
    if !ch.closed {
      DiscardOk(c, ch, futs);
      HandOverOk(c, Discard(ch, futs), futs, v);
      ArrivalConserves(Discard(ch, futs), v);
    }
  }

  lemma {:induction false} FillOk<K>(c: K, ch: Chan, futs: Futs<K>)
    requires |ch.buffer| <= ch.capacity && Conserves(ch) && ch.policy.Fixed?
    requires ch.takes == [] && !ch.closed && PutsKnown(c, ch, futs)
    ensures var (ch1, futs1) := Fill(c, ch, futs);
      ChanOk(c, ch1, futs1) && Evolves(futs, futs1)
    decreases |ch.puts|
  {
    if ch.puts != [] && |ch.buffer| < ch.capacity {
      var o := ch.puts[0];
      var ch1 := ch.(puts := ch.puts[1..]);
      assert forall j :: 0 <= j < |ch1.puts| ==> ch1.puts[j] == ch.puts[j + 1];
      if Live(futs, o.fut) {
        var futs1 := Resolve(futs, o.fut, PutDone(true), c, [Gave(c, o.value)]);
        assert Evolves(futs, futs1);
        var ch2 := ch1.Arrive(o.value).(buffer := ch1.buffer + [o.value]);
        FillOk(c, ch2, futs1);
      } else {
        FillOk(c, ch1, futs);
      }
    }
  }

  ghost predicate PutsKnown<K>(c: K, ch: Chan, futs: Futs<K>) {
    forall j :: 0 <= j < |ch.puts| ==>
      ch.puts[j].fut in futs && PutTo(c, ch.puts[j].value) in futs[ch.puts[j].fut].ports
  }

  lemma TakeOverOk<K>(c: K, ch: Chan, futs: Futs<K>)
    requires ChanOk(c, ch, futs) && AllLive(ch, futs) && ch.buffer == []
    ensures var (ch1, futs1, got) := TakeOver(c, ch, futs);
      && ChanOk(c, ch1, futs1) && Evolves(futs, futs1)
      && (got.None? <==> ch.puts == [])
      && (got.None? ==> ch1 == ch && futs1 == futs)
  {
    hide Kept;
    if ch.puts != [] {
      var o := ch.puts[0];
      assert Live(futs, o.fut);
      PassConserves(ch, o.value);
      var (ch1, futs1, _) := TakeOver(c, ch, futs);
      assert futs1 == Resolve(futs, o.fut, PutDone(true), c, [Gave(c, o.value)]);
      assert Evolves(futs, futs1);
      ChanOkEvolves(c, ch, futs, futs1);
      assert forall j :: 0 <= j < |ch1.puts| ==> ch1.puts[j] == ch.puts[j + 1];
    }
  }

  lemma TryTakeOk<K>(c: K, ch: Chan, futs: Futs<K>)
    requires ChanOk(c, ch, futs)
    ensures var (ch1, futs1, r) := TryTake(c, ch, futs);
      && ChanOk(c, ch1, futs1) && Evolves(futs, futs1)
      && (r.NotReady? ==>
        && futs1 == futs && ch1 == Discard(ch, futs) && ch1.puts == []
        && !ch1.closed && ch1.buffer == [])
  {
    DiscardOk(c, ch, futs);
    var ch0 := Discard(ch, futs);
    if ch0.buffer != [] {
      TakeBufferedOk(c, ch0, futs);
    } else {
      TakeOverOk(c, ch0, futs);
    }
  }

  lemma LiveTakeWantsValue<K>(c: K, ch: Chan, futs: Futs<K>)
    requires ChanOk(c, ch, futs) && AllLive(ch, futs)
    ensures ch.takes == [] || ch.buffer == []
  {
    if ch.takes != [] {
      assert Live(futs, ch.takes[0]);
    }
  }

  lemma TakeBufferedOk<K>(c: K, ch0: Chan, futs: Futs<K>)
    requires ChanOk(c, ch0, futs) && AllLive(ch0, futs) && ch0.buffer != []
    ensures var v := ch0.buffer[0];
      var (ch1, futs1) := Fill(c, Discard(ch0.Deliver(v).(buffer := ch0.buffer[1..]), futs), futs);
      ChanOk(c, ch1, futs1) && Evolves(futs, futs1)
  {
    hide Kept;
    var v := ch0.buffer[0];
    var ch1 := ch0.Deliver(v).(buffer := ch0.buffer[1..]);
    LiveTakeWantsValue(c, ch0, futs);
    FrontConserves(ch0);
    LivePutsIn(ch1.puts, futs);
    var ch2 := Discard(ch1, futs);
    if ch0.puts == [] {
      assert ch2 == ch1;
    } else {
      assert Live(futs, ch0.puts[0].fut);
      forall j | 0 <= j < |ch2.puts|
        ensures ch2.puts[j].fut in futs && PutTo(c, ch2.puts[j].value) in futs[ch2.puts[j].fut].ports
      {
        assert ch2.puts[j] in LivePuts(ch1.puts, futs) && ch2.puts[j] in ch1.puts;
      }
      FillOk(c, ch2, futs);
    }
  }

  lemma {:induction false} ResolveAllOk<K>(c: K, fs: seq<FutId>, futs: Futs<K>, out: Outcome)
    requires forall i :: 0 <= i < |fs| ==> fs[i] in futs
    requires out.Drained? || out == PutDone(false)
    ensures Evolves(futs, ResolveAll(c, fs, futs, out))
    ensures forall i :: 0 <= i < |fs| ==> !Live(ResolveAll(c, fs, futs, out), fs[i])
  {
    if fs != [] {
      var futs1 := if Live(futs, fs[0]) then Resolve(futs, fs[0], out, c, []) else futs;
      ResolveAllOk(c, fs[1..], futs1, out);
      assert forall i :: 1 <= i < |fs| ==> fs[i] == fs[1..][i - 1];
    }
  }

  /** Once every live offer has been answered, none of the offers is live. */
  lemma PutsDead<K>(c: K, puts: seq<Offer>, futs: Futs<K>)
    requires forall j :: 0 <= j < |puts| ==> puts[j].fut in futs
    ensures var futs1 := ResolveAll(c, OfferFuts(LivePuts(puts, futs)), futs, PutDone(false));
      && Evolves(futs, futs1)
      && forall j :: 0 <= j < |puts| ==> !Live(futs1, puts[j].fut)
  {
    LivePutsIn(puts, futs);
    var live := LivePuts(puts, futs);
    forall i | 0 <= i < |live| ensures live[i].fut in futs {
      assert live[i] in puts;
    }
    ResolveAllOk(c, OfferFuts(live), futs, PutDone(false));
    forall j | 0 <= j < |puts| ensures !Live(ResolveAll(c, OfferFuts(live), futs, PutDone(false)), puts[j].fut) {
      if Live(futs, puts[j].fut) {
        assert puts[j] in live;
        var k :| 0 <= k < |live| && live[k] == puts[j];
        assert OfferFuts(live)[k] == puts[j].fut;
      }
    }
  }

  lemma TakesDead<K>(c: K, takes: seq<FutId>, futs: Futs<K>, futs1: Futs<K>)
    requires forall j :: 0 <= j < |takes| ==> takes[j] in futs
    requires Evolves(futs, futs1)
    ensures var futs2 := ResolveAll(c, LiveTakes(takes, futs), futs1, Drained);
      && Evolves(futs1, futs2)
      && forall j :: 0 <= j < |takes| ==> !Live(futs2, takes[j])
  {
    LiveTakesIn(takes, futs);
    var live := LiveTakes(takes, futs);
    forall i | 0 <= i < |live| ensures live[i] in futs1 {
      assert live[i] in takes;
    }
    ResolveAllOk(c, live, futs1, Drained);
    forall j | 0 <= j < |takes| ensures !Live(ResolveAll(c, live, futs1, Drained), takes[j]) {
      if Live(futs, takes[j]) {
        assert takes[j] in live;
        var k :| 0 <= k < |live| && live[k] == takes[j];
      }
    }
  }

  /** Closing leaves no operation of the channel waiting. */
  lemma ClosedDead<K>(c: K, ch: Chan, futs: Futs<K>)
    requires ChanOk(c, ch, futs) && !ch.closed
    ensures var (ch1, futs1) := Close(c, ch, futs);
      && Evolves(futs, futs1)
      && (forall j :: 0 <= j < |ch.puts| ==> !Live(futs1, ch.puts[j].fut))
      && (forall i :: 0 <= i < |ch.takes| ==> !Live(futs1, ch.takes[i]))
  {
    var futs1 := ResolveAll(c, OfferFuts(LivePuts(ch.puts, futs)), futs, PutDone(false));
    PutsDead(c, ch.puts, futs);
    if ch.buffer == [] {
      TakesDead(c, ch.takes, futs, futs1);
    }
  }

  lemma CloseOk<K>(c: K, ch: Chan, futs: Futs<K>)
    requires ChanOk(c, ch, futs)
    ensures var (ch1, futs1) := Close(c, ch, futs);
      && ChanOk(c, ch1, futs1) && Evolves(futs, futs1)
      && ch1.closed
      && ch1.buffer == ch.buffer
      && (!ch.closed ==> forall j :: 0 <= j < |ch.puts| ==> !Live(futs1, ch.puts[j].fut))
      && (forall i :: 0 <= i < |ch.takes| ==> !Live(futs1, ch.takes[i]))
  {
    if !ch.closed {
      ClosedDead(c, ch, futs);
      LiveTakesIn(ch.takes, futs);
      var (ch1, futs1) := Close(c, ch, futs);
      assert ch1.puts == [];
      forall i | 0 <= i < |ch1.takes| ensures ch1.takes[i] in ch.takes {
        assert ch1.takes[i] in LiveTakes(ch.takes, futs);
      }
    }
  }

  // ------------------------------------------------------------------
  // First come, first served

  /** The futures that an operation wins are the live ones among the first `n` waiting. */
  ghost predicate ServedUpTo<K>(waiting: seq<FutId>, n: nat, futs: Futs<K>, futs1: Futs<K>) {
    && n <= |waiting|
    && (forall i :: 0 <= i < n ==> !Live(futs1, waiting[i]))
    && (forall f :: f in futs && (f !in futs1 || futs1[f] != futs[f]) ==> f in waiting[..n])
  }

  ghost predicate InTurn<K>(waiting: seq<FutId>, futs: Futs<K>, futs1: Futs<K>) {
    exists n: nat :: ServedUpTo(waiting, n, futs, futs1)
  }

  /** A prefix of the live waiters covers exactly the live ones of a prefix of all waiters. */
  lemma {:induction false} LivePrefix<K>(waiting: seq<FutId>, futs: Futs<K>, n: nat) returns (m: nat)
    requires n <= |LiveTakes(waiting, futs)|
    ensures m <= |waiting|
    ensures forall i :: 0 <= i < m ==> waiting[i] in LiveTakes(waiting, futs)[..n] || !Live(futs, waiting[i])
    ensures forall f :: f in LiveTakes(waiting, futs)[..n] ==> f in waiting[..m]
  {
    if waiting == [] || n == 0 {
      m := 0;
    } else {
      var live := Live(futs, waiting[0]);
      var rest := LiveTakes(waiting[1..], futs);
      var k := if live then n - 1 else n;
      var m0 := LivePrefix(waiting[1..], futs, k);
      m := m0 + 1;
      assert waiting[..m] == [waiting[0]] + waiting[1..][..m0];
      if live {
        assert LiveTakes(waiting, futs)[..n] == [waiting[0]] + rest[..k];
      } else {
        assert LiveTakes(waiting, futs) == rest;
      }
      forall i | 0 <= i < m ensures waiting[i] in LiveTakes(waiting, futs)[..n] || !Live(futs, waiting[i]) {
        if i > 0 {
          assert waiting[i] == waiting[1..][i - 1];
        } else if live {
          assert ([waiting[0]] + rest[..k])[0] == waiting[0];
        }
      }
    }
  }

  /** Being served in turn among the live waiters is being served in turn among all. */
  lemma LiveInTurn<K>(waiting: seq<FutId>, futs: Futs<K>, futs1: Futs<K>)
    requires InTurn(LiveTakes(waiting, futs), futs, futs1) && Evolves(futs, futs1)
    ensures InTurn(waiting, futs, futs1)
  {
    var live := LiveTakes(waiting, futs);
    var n: nat :| ServedUpTo(live, n, futs, futs1);
    var m := LivePrefix(waiting, futs, n);
    forall i | 0 <= i < m ensures !Live(futs1, waiting[i]) {
      if waiting[i] in live[..n] {
        var k :| 0 <= k < n && live[k] == waiting[i];
      }
    }
    assert ServedUpTo(waiting, m, futs, futs1);
  }

  lemma {:induction false} LiveOffers<K>(puts: seq<Offer>, futs: Futs<K>)
    ensures OfferFuts(LivePuts(puts, futs)) == LiveTakes(OfferFuts(puts), futs)
  {
    if puts != [] {
      LiveOffers(puts[1..], futs);
      assert OfferFuts(puts)[1..] == OfferFuts(puts[1..]);
    }
  }

  lemma NobodyServed<K>(waiting: seq<FutId>, futs: Futs<K>)
    ensures InTurn(waiting, futs, futs)
  {
    assert ServedUpTo(waiting, 0, futs, futs);
  }

  lemma FirstServed<K>(waiting: seq<FutId>, futs: Futs<K>, out: Outcome, c: K, effects: seq<Effect<K>>)
    requires waiting != [] && Live(futs, waiting[0])
    ensures InTurn(waiting, futs, Resolve(futs, waiting[0], out, c, effects))
  {
    assert ServedUpTo(waiting, 1, futs, Resolve(futs, waiting[0], out, c, effects));
  }

  /** A put goes to the take that has waited longest, of those that can still win. */
  lemma TryPutInTurn<K>(c: K, ch: Chan, futs: Futs<K>, v: V)
    requires ChanOk(c, ch, futs)
    ensures InTurn(ch.takes, futs, TryPut(c, ch, futs, v).1)
  {
    hide InTurn;
    NobodyServed(ch.takes, futs);
    if !ch.closed {
      TryPutOk(c, ch, futs, v);
      DiscardOk(c, ch, futs);
      var live := LiveTakes(ch.takes, futs);
      hide ChanOk, LiveTakes, LivePuts;
      if live != [] {
        assert Discard(ch, futs).takes == live && Live(futs, live[0]);
        FirstServed(live, futs, Took(v), c, [Got(c, v)]);
        LiveInTurn(ch.takes, futs, TryPut(c, ch, futs, v).1);
      }
    }
  }

  lemma {:induction false} FillInTurn<K>(c: K, ch: Chan, futs: Futs<K>)
    ensures InTurn(OfferFuts(ch.puts), futs, Fill(c, ch, futs).1)
    ensures Fill(c, ch, futs).1.Keys == futs.Keys
    ensures forall f :: Live(Fill(c, ch, futs).1, f) ==> Live(futs, f)
    decreases |ch.puts|
  {
    var waiting := OfferFuts(ch.puts);
    if ch.puts == [] || |ch.buffer| >= ch.capacity {
      NobodyServed(waiting, futs);
    } else {
      var o := ch.puts[0];
      var ch1 := ch.(puts := ch.puts[1..]);
      var live := Live(futs, o.fut);
      var ch2 := if live then ch1.Arrive(o.value).(buffer := ch1.buffer + [o.value]) else ch1;
      var futs1 := if live then Resolve(futs, o.fut, PutDone(true), c, [Gave(c, o.value)]) else futs;
      var futs2 := Fill(c, ch2, futs1).1;
      FillInTurn(c, ch2, futs1);
      assert waiting == [o.fut] + OfferFuts(ch2.puts);
      var n: nat :| ServedUpTo(OfferFuts(ch2.puts), n, futs1, futs2);
      OneMore(o.fut, OfferFuts(ch2.puts), n, futs, futs1, futs2);
    }
  }

  lemma OneMore<K>(first: FutId, others: seq<FutId>, n: nat, futs: Futs<K>, futs1: Futs<K>, futs2: Futs<K>)
    requires ServedUpTo(others, n, futs1, futs2) && futs1.Keys == futs.Keys && futs2.Keys == futs.Keys
    requires forall f :: f in futs && f != first ==> futs1[f] == futs[f]
    requires !Live(futs1, first) && forall f :: Live(futs2, f) ==> Live(futs1, f)
    ensures InTurn([first] + others, futs, futs2)
  {
    var waiting := [first] + others;
    assert waiting[..n + 1] == [first] + others[..n];
    forall f | f in futs && futs2[f] != futs[f] ensures f in waiting[..n + 1] {
      if f != first {
        assert f in others[..n];
      }
    }
    forall i | 0 <= i < n + 1 ensures !Live(futs2, waiting[i]) {
      if i > 0 {
        assert waiting[i] == others[i - 1];
      }
    }
    assert ServedUpTo(waiting, n + 1, futs, futs2);
  }

  /** A take is served by, and makes room for, the puts that have waited longest. */
  lemma TryTakeInTurn<K>(c: K, ch: Chan, futs: Futs<K>)
    requires ChanOk(c, ch, futs)
    ensures InTurn(OfferFuts(ch.puts), futs, TryTake(c, ch, futs).1)
  {
    hide InTurn;
    DiscardOk(c, ch, futs);
    TryTakeOk(c, ch, futs);
    LiveOffers(ch.puts, futs);
    NobodyServed(OfferFuts(ch.puts), futs);
    var ch0 := Discard(ch, futs);
    var live := OfferFuts(ch0.puts);
    hide ChanOk, LiveTakes, LivePuts;
    if ch0.buffer != [] {
      var ch1 := Discard(ch0.Deliver(ch0.buffer[0]).(buffer := ch0.buffer[1..]), futs);
      DiscardTwice(ch0, ch1.puts, futs);
      FillInTurn(c, ch1, futs);
      LiveInTurn(OfferFuts(ch.puts), futs, TryTake(c, ch, futs).1);
    } else if ch0.puts != [] {
      var o := ch0.puts[0];
      assert Live(futs, o.fut) && live[0] == o.fut;
      FirstServed(live, futs, PutDone(true), c, [Gave(c, o.value)]);
      LiveInTurn(OfferFuts(ch.puts), futs, TryTake(c, ch, futs).1);
    }
  }

  lemma DiscardTwice<K>(ch: Chan, puts: seq<Offer>, futs: Futs<K>)
    requires puts == LivePuts(ch.puts, futs) && forall j :: 0 <= j < |ch.puts| ==> Live(futs, ch.puts[j].fut)
    ensures puts == ch.puts
  {
    AllLivePuts(ch.puts, futs);
  }

  lemma {:induction false} AllLivePuts<K>(puts: seq<Offer>, futs: Futs<K>)
    requires forall j :: 0 <= j < |puts| ==> Live(futs, puts[j].fut)
    ensures LivePuts(puts, futs) == puts
  {
    if puts != [] {
      AllLivePuts(puts[1..], futs);
    }
  }
}
