/**
  Whole runs over any set of channels: puts, takes, offers, polls, `alts`,
  closes and cancellations in any order
  (src/basilisp/concurrent_channel.py:92-192, 228-280).

  A put, take, offer or poll is a selection with one port; an offer or poll
  gives up instead of waiting.
*/
module ChannelRuns {
  import opened Prelude
  import opened Channel

  type ChanId = nat

  type World = Net<ChanId>

  datatype Event =
    | Open(c: ChanId, capacity: nat, policy: Policy)
    | Select(ports: seq<Port<ChanId>>, wait: bool)
    | Shut(c: ChanId)
    | Cancel(f: FutId)
    | Tidy(c: ChanId)

  function Start(): World { Net(map[], map[], 0) }

  /** An event the interface admits: the channels exist, and a waiting selection has a port. */
  predicate Admitted(w: World, e: Event) {
    match e
    case Open(c, capacity, policy) => c !in w.chans && (capacity == 0 ==> policy.Fixed?)
    case Select(ports, wait) => Known(w, ports) && (wait ==> ports != [])
    case Shut(c) => c in w.chans
    case Cancel(f) => true
    case Tidy(c) => c in w.chans
  }

  /** An event that is not admitted raises before anything changes. */
  function Step(w: World, e: Event): World {
    if !Admitted(w, e) then w
    else
      match e
      case Open(c, capacity, policy) => w.(chans := w.chans[c := NewChan(capacity, policy)])
      case Select(ports, wait) => SelectStep(w, ports, wait)
      case Shut(c) =>
        var (ch, futs) := Close(c, w.chans[c], w.futs);
        w.(chans := w.chans[c := ch], futs := futs)
      case Cancel(f) => if Live(w.futs, f) then w.(futs := w.futs[f := w.futs[f].(state := Cancelled)]) else w
      case Tidy(c) => w.(chans := w.chans[c := Discard(w.chans[c], w.futs)])
  }

  function Exec(w: World, run: seq<Event>): World
    decreases |run|
  {
    if run == [] then w else Step(Exec(w, run[..|run| - 1]), run[|run| - 1])
  }

  // ------------------------------------------------------------------
  // What a run keeps

  /** Every channel is sound, every future was won at most once. */
  ghost predicate Sound(w: World) {
    && (forall c :: c in w.chans ==> ChanOk(c, w.chans[c], w.futs))
    && (forall f :: f in w.futs ==> f < w.next && FutOk(w.futs[f]) && Known(w, w.futs[f].ports))
  }

  predicate Queued(ch: Chan, p: Port<ChanId>, f: FutId) {
    match p
    case TakeFrom(_) => f in ch.takes
    case PutTo(_, v) => Offer(v, f) in ch.puts
  }

  /** No waiting selection has lost one of its operations. */
  ghost predicate NoneLost(w: World) {
    forall f, k :: Live(w.futs, f) && 0 <= k < |w.futs[f].ports| && w.futs[f].ports[k].chan in w.chans ==>
      Queued(w.chans[w.futs[f].ports[k].chan], w.futs[f].ports[k], f)
  }

  /** The value these effects gave to, or got from, a channel. */
  function Moved(effects: seq<Effect<ChanId>>, c: ChanId, gave: bool): multiset<V> {
    if effects != [] && effects[0].Gave? == gave && effects[0].chan == c then multiset{effects[0].value} else multiset{}
  }

  /** What the first `n` selections together gave to, or got from, a channel. */
  function Total(futs: Futs<ChanId>, c: ChanId, gave: bool, n: nat): multiset<V> {
    if n == 0 then multiset{}
    else Total(futs, c, gave, n - 1) + (if n - 1 in futs then Moved(futs[n - 1].effects, c, gave) else multiset{})
  }

  /** Every accepted value came from one successful put, every delivered value went to one successful take. */
  ghost predicate Balanced(w: World) { BalancedBut(w, []) }

  /** Balanced once the given effects are recorded. */
  ghost predicate BalancedBut(w: World, effects: seq<Effect<ChanId>>) {
    forall c :: c in w.chans ==>
      && multiset(w.chans[c].arrived) == Total(w.futs, c, true, w.next) + Moved(effects, c, true)
      && multiset(w.chans[c].delivered) == Total(w.futs, c, false, w.next) + Moved(effects, c, false)
  }

  ghost predicate WorldOk(w: World) { Sound(w) && NoneLost(w) && Balanced(w) }

  /** An operation that cannot proceed, except against the selection `f` itself. */
  ghost predicate Blocked(ch: Chan, futs: Futs<ChanId>, p: Port<ChanId>, f: FutId) {
    !ch.closed &&
    match p
    case TakeFrom(_) =>
      ch.buffer == [] && forall j :: 0 <= j < |ch.puts| && Live(futs, ch.puts[j].fut) ==> ch.puts[j].fut == f
    case PutTo(_, _) =>
      && |ch.buffer| == ch.capacity && ch.policy.Fixed?
      && forall i :: 0 <= i < |ch.takes| && Live(futs, ch.takes[i]) ==> ch.takes[i] == f
  }

  // ------------------------------------------------------------------
  // The ledger of one channel operation

  lemma {:induction false} TotalResolve(futs: Futs<ChanId>, f: FutId, fut: Fut<ChanId>, c: ChanId, gave: bool, n: nat)
    requires f in futs && futs[f].effects == []
    ensures Total(futs[f := fut], c, gave, n)
         == Total(futs, c, gave, n) + (if f < n then Moved(fut.effects, c, gave) else multiset{})
  {
    if n != 0 {
      TotalResolve(futs, f, fut, c, gave, n - 1);
    }
  }

  lemma {:induction false} TotalFresh(futs: Futs<ChanId>, f: FutId, fut: Fut<ChanId>, c: ChanId, gave: bool, n: nat)
    requires f !in futs
    ensures Total(futs[f := fut], c, gave, n)
         == Total(futs, c, gave, n) + (if f < n then Moved(fut.effects, c, gave) else multiset{})
  {
    if n != 0 {
      TotalFresh(futs, f, fut, c, gave, n - 1);
    }
  }

  /** Pending futures have moved nothing, and all futures are numbered below `n`. */
  ghost predicate Clean(futs: Futs<ChanId>, n: nat) {
    forall f :: f in futs ==> f < n && (futs[f].state.Pending? ==> futs[f].effects == [])
  }

  /** What a channel accepts and delivers is what its futures, and the caller with `gave` and `got`, account for. */
  ghost predicate Accounts(c: ChanId, ch: Chan, futs: Futs<ChanId>, ch1: Chan, futs1: Futs<ChanId>,
      gave: multiset<V>, got: multiset<V>, n: nat)
  {
    && multiset(ch1.arrived) + Total(futs, c, true, n) == multiset(ch.arrived) + Total(futs1, c, true, n) + gave
    && multiset(ch1.delivered) + Total(futs, c, false, n) == multiset(ch.delivered) + Total(futs1, c, false, n) + got
  }

  ghost predicate OthersSame(c: ChanId, futs: Futs<ChanId>, futs1: Futs<ChanId>, n: nat) {
    forall d, g :: d != c ==> Total(futs1, d, g, n) == Total(futs, d, g, n)
  }

  /** An operation still able to win stays queued. */
  ghost predicate Retains(ch: Chan, ch1: Chan, futs1: Futs<ChanId>) {
    && (forall f :: f in ch.takes && Live(futs1, f) ==> f in ch1.takes)
    && (forall o :: o in ch.puts && Live(futs1, o.fut) ==> o in ch1.puts)
  }

  ghost predicate Moves(c: ChanId, ch: Chan, futs: Futs<ChanId>, ch1: Chan, futs1: Futs<ChanId>,
      gave: multiset<V>, got: multiset<V>, n: nat)
  {
    && Accounts(c, ch, futs, ch1, futs1, gave, got, n)
    && OthersSame(c, futs, futs1, n) && Retains(ch, ch1, futs1) && Clean(futs1, n)
    && forall f :: Live(futs1, f) ==> Live(futs, f)
  }

  lemma MovesTransitive(c: ChanId, ch: Chan, futs: Futs<ChanId>, ch1: Chan, futs1: Futs<ChanId>,
      ch2: Chan, futs2: Futs<ChanId>, gave: multiset<V>, got: multiset<V>, gave1: multiset<V>, got1: multiset<V>,
      n: nat)
    requires Moves(c, ch, futs, ch1, futs1, gave, got, n)
    requires Moves(c, ch1, futs1, ch2, futs2, gave1, got1, n)
    ensures Moves(c, ch, futs, ch2, futs2, gave + gave1, got + got1, n)
  {
    hide Total;
    LedgerAdds(multiset(ch.arrived), multiset(ch1.arrived), multiset(ch2.arrived),
      Total(futs, c, true, n), Total(futs1, c, true, n), Total(futs2, c, true, n), gave, gave1);
    LedgerAdds(multiset(ch.delivered), multiset(ch1.delivered), multiset(ch2.delivered),
      Total(futs, c, false, n), Total(futs1, c, false, n), Total(futs2, c, false, n), got, got1);
  }

  lemma QuietThenMoves(c: ChanId, ch: Chan, futs: Futs<ChanId>, ch1: Chan, ch2: Chan, futs2: Futs<ChanId>,
      gave: multiset<V>, got: multiset<V>, n: nat)
    requires Moves(c, ch, futs, ch1, futs, multiset{}, multiset{}, n)
    requires Moves(c, ch1, futs, ch2, futs2, gave, got, n)
    ensures Moves(c, ch, futs, ch2, futs2, gave, got, n)
  {
    hide Moves;
    MovesTransitive(c, ch, futs, ch1, futs, ch2, futs2, multiset{}, multiset{}, gave, got, n);
    assert multiset{} + gave == gave && multiset{} + got == got;
  }

  lemma LedgerAdds(a: multiset<V>, a1: multiset<V>, a2: multiset<V>, t: multiset<V>, t1: multiset<V>, t2: multiset<V>,
      x: multiset<V>, x1: multiset<V>)
    requires a1 + t == a + t1 + x && a2 + t1 == a1 + t2 + x1
    ensures a2 + t == a + t2 + (x + x1)
  {
    forall v ensures (a2 + t)[v] == (a + t2 + (x + x1))[v] {
      assert (a1 + t)[v] == (a + t1 + x)[v] && (a2 + t1)[v] == (a1 + t2 + x1)[v];
    }
  }

  /** Winning a pending future moves its value, and touches no other channel's ledger. */
  lemma ResolveMoves(c: ChanId, futs: Futs<ChanId>, f: FutId, out: Outcome, effects: seq<Effect<ChanId>>, n: nat)
    requires Live(futs, f) && Clean(futs, n)
    requires |effects| <= 1 && forall e :: e in effects ==> e.chan == c
    ensures var futs1 := Resolve(futs, f, out, c, effects);
      && Clean(futs1, n) && OthersSame(c, futs, futs1, n) && (forall g :: Live(futs1, g) ==> Live(futs, g))
      && !Live(futs1, f)
      && (forall gave :: Total(futs1, c, gave, n) == Total(futs, c, gave, n) + Moved(effects, c, gave))
  {
    var fut := futs[f].(state := Resolved(out, c), effects := futs[f].effects + effects);
    assert fut.effects == effects;
    forall d, gave ensures Total(futs[f := fut], d, gave, n) == Total(futs, d, gave, n) + Moved(fut.effects, d, gave) {
      TotalResolve(futs, f, fut, d, gave, n);
    }
  }

  lemma DiscardMoves(c: ChanId, ch: Chan, futs: Futs<ChanId>, n: nat)
    requires Clean(futs, n)
    ensures Moves(c, ch, futs, Discard(ch, futs), futs, multiset{}, multiset{}, n)
  {
    hide Total;
    LivePutsIn(ch.puts, futs);
    LiveTakesIn(ch.takes, futs);
  }

  lemma NothingMoves(c: ChanId, ch: Chan, futs: Futs<ChanId>, n: nat)
    requires Clean(futs, n)
    ensures Moves(c, ch, futs, ch, futs, multiset{}, multiset{}, n)
  {
    hide Total;
  }

  lemma HandOverMoves(c: ChanId, ch: Chan, futs: Futs<ChanId>, v: V, n: nat)
    requires Clean(futs, n) && AllLive(ch, futs)
    ensures var (ch1, futs1, handed) := HandOver(c, ch, futs, v);
      Moves(c, ch, futs, ch1, futs1, if handed then multiset{v} else multiset{}, multiset{}, n)
  {
    if ch.takes == [] {
      NothingMoves(c, ch, futs, n);
    } else {
      hide Total, OthersSame, Clean, Accounts, Moved, Resolve, Retains;
      var (f, ch1) := (ch.takes[0], ch.(takes := ch.takes[1..]).Pass(v));
      assert Live(futs, f);
      ResolveMoves(c, futs, f, Took(v), [Got(c, v)], n);
      var futs1 := Resolve(futs, f, Took(v), c, [Got(c, v)]);
      PassAccounts(c, ch, futs, ch1, futs1, v, n);
    }
  }

  /** A value handed over, in the books. */
  lemma PassAccounts(c: ChanId, ch: Chan, futs: Futs<ChanId>, ch1: Chan, futs1: Futs<ChanId>, v: V, n: nat)
    requires ch1.arrived == ch.arrived + [v] && ch1.delivered == ch.delivered + [v]
    requires forall gave :: Total(futs1, c, gave, n) == Total(futs, c, gave, n) + Moved([Got(c, v)], c, gave)
    ensures Accounts(c, ch, futs, ch1, futs1, multiset{v}, multiset{}, n)
  {
    hide Total;
  }

  lemma ArrivalMoves(c: ChanId, ch: Chan, futs: Futs<ChanId>, ch1: Chan, v: V, n: nat)
    requires Clean(futs, n)
    requires ch1.takes == ch.takes && ch1.puts == ch.puts
    requires ch1.arrived == ch.arrived + [v] && ch1.delivered == ch.delivered
    ensures Moves(c, ch, futs, ch1, futs, multiset{v}, multiset{}, n)
  {
    hide Total;
  }

  lemma TryPutMoves(c: ChanId, ch: Chan, futs: Futs<ChanId>, v: V, n: nat)
    requires ChanOk(c, ch, futs) && Clean(futs, n)
    ensures var (ch1, futs1, r) := TryPut(c, ch, futs, v);
      Moves(c, ch, futs, ch1, futs1, if r.Accepted? then multiset{v} else multiset{}, multiset{}, n)
  {
    hide ChanOk, Moves, Evolves, LivePuts, LiveTakes;
    DiscardMoves(c, ch, futs, n);
    if ch.closed {
      NothingMoves(c, ch, futs, n);
    } else {
      var ch0 := Discard(ch, futs);
      DiscardOk(c, ch, futs);
      HandOverMoves(c, ch0, futs, v, n);
      var (ch1, futs1, handed) := HandOver(c, ch0, futs, v);
      HandOverOk(c, ch0, futs, v);
      var (ch2, futs2, r) := TryPut(c, ch, futs, v);
      var gave := if r.Accepted? then multiset{v} else multiset{};
      if !handed && r.Accepted? {
        ArrivalMoves(c, ch0, futs, ch2, v, n);
      }
      assert Moves(c, ch0, futs, ch2, futs2, gave, multiset{}, n);
      QuietThenMoves(c, ch, futs, ch0, ch2, futs2, gave, multiset{}, n);
    }
  }

  /** The first waiting put is answered: its value arrives, and may go straight to the caller. */
  lemma AnswerPutMoves(c: ChanId, ch: Chan, futs: Futs<ChanId>, ch1: Chan, got: seq<V>, n: nat)
    requires Clean(futs, n) && ch.puts != [] && Live(futs, ch.puts[0].fut)
    requires ch1.puts == ch.puts[1..] && ch1.takes == ch.takes
    requires ch1.arrived == ch.arrived + [ch.puts[0].value] && ch1.delivered == ch.delivered + got
    ensures var o := ch.puts[0];
      Moves(c, ch, futs, ch1, Resolve(futs, o.fut, PutDone(true), c, [Gave(c, o.value)]), multiset{}, multiset(got), n)
  {
    hide Total;
    var o := ch.puts[0];
    ResolveMoves(c, futs, o.fut, PutDone(true), [Gave(c, o.value)], n);
    assert ch.puts == [o] + ch1.puts;
  }

  lemma DropPutMoves(c: ChanId, ch: Chan, futs: Futs<ChanId>, n: nat)
    requires Clean(futs, n) && ch.puts != [] && !Live(futs, ch.puts[0].fut)
    ensures Moves(c, ch, futs, ch.(puts := ch.puts[1..]), futs, multiset{}, multiset{}, n)
  {
    hide Total;
    assert ch.puts == [ch.puts[0]] + ch.puts[1..];
  }

  lemma {:induction false} FillMoves(c: ChanId, ch: Chan, futs: Futs<ChanId>, n: nat)
    requires Clean(futs, n)
    ensures var (ch1, futs1) := Fill(c, ch, futs);
      Moves(c, ch, futs, ch1, futs1, multiset{}, multiset{}, n) && Clean(futs1, n)
    decreases |ch.puts|
  {
    hide Moves;
    NothingMoves(c, ch, futs, n);
    if ch.puts != [] && |ch.buffer| < ch.capacity {
      var o := ch.puts[0];
      var ch1 := ch.(puts := ch.puts[1..]);
      var (ch2, futs2) := Fill(c, ch, futs);
      if Live(futs, o.fut) {
        var futs1 := Resolve(futs, o.fut, PutDone(true), c, [Gave(c, o.value)]);
        var ch3 := ch1.Arrive(o.value).(buffer := ch1.buffer + [o.value]);
        ResolveMoves(c, futs, o.fut, PutDone(true), [Gave(c, o.value)], n);
        AnswerPutMoves(c, ch, futs, ch3, [], n);
        FillMoves(c, ch3, futs1, n);
        var none: multiset<V> := multiset{};
        MovesTransitive(c, ch, futs, ch3, futs1, ch2, futs2, none, multiset([]), none, none, n);
        assert none + none == none && multiset([]) + none == none;
      } else {
        DropPutMoves(c, ch, futs, n);
        FillMoves(c, ch1, futs, n);
        QuietThenMoves(c, ch, futs, ch1, ch2, futs2, multiset{}, multiset{}, n);
      }
    }
  }

  lemma TakeOverMoves(c: ChanId, ch: Chan, futs: Futs<ChanId>, n: nat)
    requires Clean(futs, n) && AllLive(ch, futs)
    ensures var (ch1, futs1, got) := TakeOver(c, ch, futs);
      Moves(c, ch, futs, ch1, futs1, multiset{}, if got.Some? then multiset{got.value} else multiset{}, n)
  {
    hide Moves;
    NothingMoves(c, ch, futs, n);
    if ch.puts != [] {
      var o := ch.puts[0];
      assert Live(futs, o.fut);
      AnswerPutMoves(c, ch, futs, TakeOver(c, ch, futs).0, [o.value], n);
    }
  }

  lemma DeliverMoves(c: ChanId, ch: Chan, futs: Futs<ChanId>, ch1: Chan, v: V, n: nat)
    requires Clean(futs, n)
    requires ch1.takes == ch.takes && ch1.puts == ch.puts
    requires ch1.arrived == ch.arrived && ch1.delivered == ch.delivered + [v]
    ensures Moves(c, ch, futs, ch1, futs, multiset{}, multiset{v}, n)
  {
    hide Total;
  }

  lemma TakeBufferedMoves(c: ChanId, ch: Chan, futs: Futs<ChanId>, n: nat)
    requires Clean(futs, n) && ch.buffer != []
    ensures var v := ch.buffer[0];
      var (ch1, futs1) := Fill(c, Discard(ch.Deliver(v).(buffer := ch.buffer[1..]), futs), futs);
      Moves(c, ch, futs, ch1, futs1, multiset{}, multiset{v}, n)
  {
    hide Moves, Clean, Fill, LivePuts, LiveTakes;
    var v := ch.buffer[0];
    var ch1 := ch.Deliver(v).(buffer := ch.buffer[1..]);
    var ch2 := Discard(ch1, futs);
    var (ch3, futs3) := Fill(c, ch2, futs);
    DeliverMoves(c, ch, futs, ch1, v, n);
    DiscardMoves(c, ch1, futs, n);
    FillMoves(c, ch2, futs, n);
    QuietThenMoves(c, ch1, futs, ch2, ch3, futs3, multiset{}, multiset{}, n);
    var none: multiset<V> := multiset{};
    MovesTransitive(c, ch, futs, ch1, futs, ch3, futs3, none, multiset{v}, none, none, n);
    assert multiset{v} + none == multiset{v} && none + none == none;
  }

  lemma TryTakeMoves(c: ChanId, ch: Chan, futs: Futs<ChanId>, n: nat)
    requires ChanOk(c, ch, futs) && Clean(futs, n)
    ensures var (ch1, futs1, r) := TryTake(c, ch, futs);
      Moves(c, ch, futs, ch1, futs1, multiset{}, if r.Taken? then multiset{r.value} else multiset{}, n)
  {
    hide ChanOk, Moves, Evolves, LivePuts, LiveTakes;
    var ch0 := Discard(ch, futs);
    DiscardOk(c, ch, futs);
    DiscardMoves(c, ch, futs, n);
    var (ch1, futs1, r) := TryTake(c, ch, futs);
    var got := if r.Taken? then multiset{r.value} else multiset{};
    if ch0.buffer != [] {
      TakeBufferedMoves(c, ch0, futs, n);
    } else {
      TakeOverMoves(c, ch0, futs, n);
    }
    assert Moves(c, ch0, futs, ch1, futs1, multiset{}, got, n);
    QuietThenMoves(c, ch, futs, ch0, ch1, futs1, multiset{}, got, n);
  }

  lemma {:induction false} ResolveAllMoves(c: ChanId, fs: seq<FutId>, futs: Futs<ChanId>, out: Outcome, n: nat)
    requires Clean(futs, n)
    ensures var futs1 := ResolveAll(c, fs, futs, out);
      && Clean(futs1, n) && (forall g :: Live(futs1, g) ==> Live(futs, g))
      && (forall d, gave :: Total(futs1, d, gave, n) == Total(futs, d, gave, n))
  {
    hide Total;
    if fs != [] {
      if Live(futs, fs[0]) {
        ResolveMoves(c, futs, fs[0], out, [], n);
        var futs1 := Resolve(futs, fs[0], out, c, []);
        ResolveAllMoves(c, fs[1..], futs1, out, n);
        forall d, gave ensures Total(futs1, d, gave, n) == Total(futs, d, gave, n) {
        }
      } else {
        ResolveAllMoves(c, fs[1..], futs, out, n);
      }
    }
  }

  lemma CloseMoves(c: ChanId, ch: Chan, futs: Futs<ChanId>, n: nat)
    requires ChanOk(c, ch, futs) && Clean(futs, n)
    ensures var (ch1, futs1) := Close(c, ch, futs);
      Moves(c, ch, futs, ch1, futs1, multiset{}, multiset{}, n)
  {
    hide Total, ChanOk, Evolves, LivePuts, LiveTakes;
    if !ch.closed {
      CloseOk(c, ch, futs);
      var ch0 := Discard(ch.(closed := true), futs);
      var futs1 := ResolveAll(c, OfferFuts(ch0.puts), futs, PutDone(false));
      ResolveAllMoves(c, OfferFuts(ch0.puts), futs, PutDone(false), n);
      ResolveAllMoves(c, ch0.takes, futs1, Drained, n);
      var (ch1, futs2) := Close(c, ch, futs);
      forall o | o in ch.puts ensures !Live(futs2, o.fut) {
        var j :| 0 <= j < |ch.puts| && ch.puts[j] == o;
      }
      forall f | f in ch.takes ensures !Live(futs2, f) {
        var j :| 0 <= j < |ch.takes| && ch.takes[j] == f;
      }
    }
  }

  // ------------------------------------------------------------------
  // One step of the world

  /** Replacing one channel by the result of an operation on it. */
  lemma ChannelStep(w: World, c: ChanId, ch: Chan, futs: Futs<ChanId>, effects: seq<Effect<ChanId>>)
    requires WorldOk(w) && c in w.chans
    requires ChanOk(c, ch, futs) && Evolves(w.futs, futs)
    requires Moves(c, w.chans[c], w.futs, ch, futs, Moved(effects, c, true), Moved(effects, c, false), w.next)
    requires forall e :: e in effects ==> e.chan == c
    ensures var w1 := w.(chans := w.chans[c := ch], futs := futs);
      Sound(w1) && NoneLost(w1) && BalancedBut(w1, effects)
  {
    hide Sound, NoneLost, ChanOk, Evolves, BalancedBut, Moves;
    StepSound(w, c, ch, futs);
    StepKeepsQueued(w, c, ch, futs, Moved(effects, c, true), Moved(effects, c, false));
    StepBalanced(w, c, ch, futs, effects);
  }

  lemma StepBalanced(w: World, c: ChanId, ch: Chan, futs: Futs<ChanId>, effects: seq<Effect<ChanId>>)
    requires Balanced(w) && c in w.chans
    requires Moves(c, w.chans[c], w.futs, ch, futs, Moved(effects, c, true), Moved(effects, c, false), w.next)
    requires forall e :: e in effects ==> e.chan == c
    ensures BalancedBut(w.(chans := w.chans[c := ch], futs := futs), effects)
  {
    hide Total, Retains, Clean;
    var w1 := w.(chans := w.chans[c := ch], futs := futs);
    forall d | d in w1.chans
      ensures multiset(w1.chans[d].arrived) == Total(futs, d, true, w.next) + Moved(effects, d, true)
      ensures multiset(w1.chans[d].delivered) == Total(futs, d, false, w.next) + Moved(effects, d, false)
    {
      if d == c {
        Settle(multiset(ch.arrived), multiset(w.chans[c].arrived), Total(w.futs, c, true, w.next),
          Total(futs, c, true, w.next), Moved(effects, c, true));
        Settle(multiset(ch.delivered), multiset(w.chans[c].delivered), Total(w.futs, c, false, w.next),
          Total(futs, c, false, w.next), Moved(effects, c, false));
      } else {
        assert w.chans[d] == w1.chans[d];
        assert Total(futs, d, true, w.next) == Total(w.futs, d, true, w.next);
      }
    }
  }

  lemma Settle(a1: multiset<V>, a: multiset<V>, t: multiset<V>, t1: multiset<V>, x: multiset<V>)
    requires a1 + t == a + t1 + x && a == t + multiset{}
    ensures a1 == t1 + x
  {
    forall v ensures a1[v] == (t1 + x)[v] {
      assert (a1 + t)[v] == (a + t1 + x)[v];
    }
  }

  lemma StepSound(w: World, c: ChanId, ch: Chan, futs: Futs<ChanId>)
    requires Sound(w) && c in w.chans && ChanOk(c, ch, futs) && Evolves(w.futs, futs)
    ensures Sound(w.(chans := w.chans[c := ch], futs := futs))
  {
    hide ChanOk, FutOk;
    forall d | d in w.chans && d != c ensures ChanOk(d, w.chans[d], futs) {
      ChanOkEvolves(d, w.chans[d], w.futs, futs);
    }
  }

  lemma StepKeepsQueued(w: World, c: ChanId, ch: Chan, futs: Futs<ChanId>, gave: multiset<V>, got: multiset<V>)
    requires NoneLost(w) && c in w.chans && Evolves(w.futs, futs)
    requires Moves(c, w.chans[c], w.futs, ch, futs, gave, got, w.next)
    ensures NoneLost(w.(chans := w.chans[c := ch], futs := futs))
  {
    var w1 := w.(chans := w.chans[c := ch], futs := futs);
    forall f, k | Live(futs, f) && 0 <= k < |futs[f].ports| && futs[f].ports[k].chan in w1.chans
      ensures Queued(w1.chans[futs[f].ports[k].chan], futs[f].ports[k], f)
    {
      assert Live(w.futs, f) && futs[f].ports == w.futs[f].ports;
      assert Queued(w.chans[futs[f].ports[k].chan], w.futs[f].ports[k], f);
    }
  }

  lemma SoundClean(w: World)
    requires Sound(w)
    ensures Clean(w.futs, w.next)
  {
  }

  predicate Fits(p: Port<ChanId>, out: Outcome) {
    if p.PutTo? then out.PutDone? else !out.PutDone?
  }

  /** What trying one operation keeps; when it is not ready it is blocked and nothing else changed. */
  ghost predicate Tried(w: World, p: Port<ChanId>, w1: World, out: Option<Outcome>)
    requires p.chan in w.chans
  {
    && Sound(w1) && NoneLost(w1) && BalancedBut(w1, if out.Some? then EffectOf(p, out.value) else [])
    && w1.chans.Keys == w.chans.Keys && w1.next == w.next && Evolves(w.futs, w1.futs)
    && (out.Some? ==> Fits(p, out.value))
    && (out.None? ==>
      && w1.futs == w.futs && Blocked(w1.chans[p.chan], w1.futs, p, w1.next)
      && w1.chans == w.chans[p.chan := Discard(w.chans[p.chan], w.futs)])
  }

  lemma TryTakePortOk(w: World, c: ChanId)
    requires WorldOk(w) && c in w.chans
    ensures var (w1, out) := TryPort(w, TakeFrom(c)); Tried(w, TakeFrom(c), w1, out)
  {
    hide Moves, ChanOk, Evolves, NoneLost, BalancedBut, TryTake, Sound, LivePuts, LiveTakes;
    SoundClean(w);
    assert ChanOk(c, w.chans[c], w.futs) by { SoundChan(w, c); }
    TryTakeOk(c, w.chans[c], w.futs);
    TryTakeMoves(c, w.chans[c], w.futs, w.next);
    var tried := TryTake(c, w.chans[c], w.futs);
    var (w1, out) := TryPort(w, TakeFrom(c));
    assert w1.futs == tried.1 && w1.chans == w.chans[c := tried.0] && (out.None? ==> tried.2.NotReady?);
    assert w1.chans.Keys == w.chans.Keys;
    ChannelStep(w, c, w1.chans[c], w1.futs, if out.Some? then EffectOf(TakeFrom(c), out.value) else []);
  }

  lemma TryPutPortOk(w: World, c: ChanId, v: V)
    requires WorldOk(w) && c in w.chans
    ensures var (w1, out) := TryPort(w, PutTo(c, v)); Tried(w, PutTo(c, v), w1, out)
  {
    hide Moves, ChanOk, Evolves, NoneLost, BalancedBut, TryPut, Sound, LivePuts, LiveTakes;
    SoundClean(w);
    assert ChanOk(c, w.chans[c], w.futs) by { SoundChan(w, c); }
    TryPutOk(c, w.chans[c], w.futs, v);
    TryPutMoves(c, w.chans[c], w.futs, v, w.next);
    var tried := TryPut(c, w.chans[c], w.futs, v);
    var (w1, out) := TryPort(w, PutTo(c, v));
    assert w1.futs == tried.1 && w1.chans == w.chans[c := tried.0] && (out.None? ==> tried.2.Blocked?);
    assert w1.chans.Keys == w.chans.Keys;
    ChannelStep(w, c, w1.chans[c], w1.futs, if out.Some? then EffectOf(PutTo(c, v), out.value) else []);
  }

  lemma TryPortOk(w: World, p: Port<ChanId>)
    requires WorldOk(w) && p.chan in w.chans
    ensures var (w1, out) := TryPort(w, p); Tried(w, p, w1, out)
  {
    hide WorldOk, Tried, TryPort;
    match p
    case TakeFrom(c) => TryTakePortOk(w, c);
    case PutTo(c, v) => TryPutPortOk(w, c, v);
  }

  lemma SoundChan(w: World, c: ChanId)
    requires Sound(w) && c in w.chans
    ensures ChanOk(c, w.chans[c], w.futs)
  {
  }

  lemma BlockedStays(ch: Chan, futs: Futs<ChanId>, p: Port<ChanId>, f: FutId)
    requires Blocked(ch, futs, p, f)
    ensures Blocked(Discard(ch, futs), futs, p, f)
  {
    LivePutsIn(ch.puts, futs);
    LiveTakesIn(ch.takes, futs);
    var ch1 := Discard(ch, futs);
    forall i | 0 <= i < |ch1.takes| ensures ch1.takes[i] in ch.takes {
      assert ch1.takes[i] in LiveTakes(ch.takes, futs);
    }
    forall i | 0 <= i < |ch1.puts| ensures ch1.puts[i] in ch.puts {
      assert ch1.puts[i] in LivePuts(ch.puts, futs);
    }
  }

  ghost predicate AllBlocked(chans: map<ChanId, Chan>, futs: Futs<ChanId>, ports: seq<Port<ChanId>>, n: nat, f: FutId) {
    forall k :: 0 <= k < n <= |ports| ==> ports[k].chan in chans && Blocked(chans[ports[k].chan], futs, ports[k], f)
  }

  lemma {:induction false} TryPortsOk(w: World, ports: seq<Port<ChanId>>, i: nat)
    requires WorldOk(w) && Known(w, ports) && i <= |ports| && AllBlocked(w.chans, w.futs, ports, i, w.next)
    ensures var (w1, k, out) := TryPorts(w, ports, i);
      && Sound(w1) && NoneLost(w1) && w1.chans.Keys == w.chans.Keys && w1.next == w.next && Evolves(w.futs, w1.futs)
      && (out.Some? ==> k < |ports| && Fits(ports[k], out.value) && BalancedBut(w1, EffectOf(ports[k], out.value)))
      && (out.None? ==> Balanced(w1) && w1.futs == w.futs && AllBlocked(w1.chans, w1.futs, ports, |ports|, w1.next))
    decreases |ports| - i
  {
    hide Sound, NoneLost, BalancedBut, Blocked, Discard, TryPort;
    if i < |ports| {
      var p := ports[i];
      var (w1, out) := TryPort(w, p);
      TryPortOk(w, p);
      if out.None? {
        forall k | 0 <= k < i ensures Blocked(w1.chans[ports[k].chan], w1.futs, ports[k], w1.next) {
          if ports[k].chan == p.chan {
            BlockedStays(w.chans[p.chan], w.futs, ports[k], w.next);
          }
        }
        TryPortsOk(w1, ports, i + 1);
      }
    }
  }

  lemma ChanOkFresh(c: ChanId, ch: Chan, futs: Futs<ChanId>, f: FutId, fut: Fut<ChanId>)
    requires ChanOk(c, ch, futs) && f !in futs
    ensures ChanOk(c, ch, futs[f := fut])
  {
    hide Kept;
  }

  /** Numbering a new selection whose effects the channels already show. */
  lemma RecordOk(w: World, fut: Fut<ChanId>)
    requires Sound(w) && NoneLost(w) && BalancedBut(w, fut.effects) && FutOk(fut) && Known(w, fut.ports)
    ensures var w1 := w.(futs := w.futs[w.next := fut], next := w.next + 1);
      Sound(w1) && Balanced(w1) && (!fut.state.Pending? ==> NoneLost(w1))
  {
    SoundFresh(w);
    RecordBalanced(w, fut);
    RecordSound(w, fut);
    hide Sound, BalancedBut, NoneLost;
    if !fut.state.Pending? {
      RecordQueued(w, fut);
    }
  }

  lemma RecordSound(w: World, fut: Fut<ChanId>)
    requires Sound(w) && w.next !in w.futs && FutOk(fut) && Known(w, fut.ports)
    ensures Sound(w.(futs := w.futs[w.next := fut], next := w.next + 1))
  {
    hide FutOk, ChanOk;
    var w1 := w.(futs := w.futs[w.next := fut], next := w.next + 1);
    forall c | c in w.chans ensures ChanOk(c, w.chans[c], w1.futs) {
      ChanOkFresh(c, w.chans[c], w.futs, w.next, fut);
    }
    forall f | f in w1.futs ensures f < w1.next && FutOk(w1.futs[f]) && Known(w1, w1.futs[f].ports) {
      if f != w.next {
        assert w1.futs[f] == w.futs[f];
      }
    }
  }

  lemma RecordQueued(w: World, fut: Fut<ChanId>)
    requires NoneLost(w) && !fut.state.Pending?
    ensures NoneLost(w.(futs := w.futs[w.next := fut], next := w.next + 1))
  {
    hide Queued;
    var w1 := w.(futs := w.futs[w.next := fut], next := w.next + 1);
    forall f, k | Live(w1.futs, f) && 0 <= k < |w1.futs[f].ports| && w1.futs[f].ports[k].chan in w1.chans
      ensures Queued(w1.chans[w1.futs[f].ports[k].chan], w1.futs[f].ports[k], f)
    {
      assert Live(w.futs, f) && w1.futs[f] == w.futs[f];
    }
  }

  lemma RecordBalanced(w: World, fut: Fut<ChanId>)
    requires w.next !in w.futs && BalancedBut(w, fut.effects)
    ensures Balanced(w.(futs := w.futs[w.next := fut], next := w.next + 1))
  {
    hide Total, Moved;
    var futs := w.futs[w.next := fut];
    forall c, gave
      ensures Total(futs, c, gave, w.next + 1) == Total(w.futs, c, gave, w.next) + Moved(fut.effects, c, gave)
    {
      TotalFresh(w.futs, w.next, fut, c, gave, w.next);
      TotalLast(futs, c, gave, w.next);
    }
    NothingMoved();
  }

  lemma NothingMoved()
    ensures forall c, gave :: Moved([], c, gave) == multiset{}
  {
  }

  lemma TotalLast(futs: Futs<ChanId>, c: ChanId, gave: bool, n: nat)
    requires n in futs
    ensures Total(futs, c, gave, n + 1) == Total(futs, c, gave, n) + Moved(futs[n].effects, c, gave)
  {
  }

  /** Queues only grew, and nothing moved. */
  ghost predicate Grew(ch: Chan, ch1: Chan) {
    && ch1.arrived == ch.arrived && ch1.delivered == ch.delivered
    && (forall f :: f in ch.takes ==> f in ch1.takes) && (forall o :: o in ch.puts ==> o in ch1.puts)
  }

  lemma QueuedGrows(ch: Chan, ch1: Chan, p: Port<ChanId>, f: FutId)
    requires Queued(ch, p, f) && Grew(ch, ch1)
    ensures Queued(ch1, p, f)
  {
  }

  lemma EnqueueOk(c: ChanId, ch: Chan, futs: Futs<ChanId>, p: Port<ChanId>, f: FutId)
    requires p.chan == c && ChanOk(c, ch, futs) && Blocked(ch, futs, p, f) && f in futs && p in futs[f].ports
    ensures ChanOk(c, Enqueue(ch, p, f), futs) && Queued(Enqueue(ch, p, f), p, f)
  {
    hide Kept;
  }

  lemma EnqueueGrows(ch: Chan, futs: Futs<ChanId>, p: Port<ChanId>, f: FutId)
    ensures Grew(ch, Enqueue(ch, p, f))
    ensures forall q :: Blocked(ch, futs, q, f) ==> Blocked(Enqueue(ch, p, f), futs, q, f)
  {
  }

  ghost predicate AllOk(chans: map<ChanId, Chan>, futs: Futs<ChanId>) {
    forall c :: c in chans ==> ChanOk(c, chans[c], futs)
  }

  ghost predicate AllGrew(chans: map<ChanId, Chan>, r: map<ChanId, Chan>) {
    r.Keys == chans.Keys && forall c :: c in chans ==> Grew(chans[c], r[c])
  }

  ghost predicate AllQueued(r: map<ChanId, Chan>, ports: seq<Port<ChanId>>, n: nat, f: FutId) {
    forall k :: 0 <= k < n <= |ports| ==> ports[k].chan in r && Queued(r[ports[k].chan], ports[k], f)
  }

  lemma EnqueueStep(before: map<ChanId, Chan>, futs: Futs<ChanId>, ports: seq<Port<ChanId>>, n: nat, f: FutId)
    requires n < |ports| && AllBlocked(before, futs, ports, |ports|, f) && f in futs && futs[f].ports == ports
    requires AllOk(before, futs) && AllQueued(before, ports, n, f) && ports[n].chan in before
    ensures var p := ports[n];
      var r := before[p.chan := Enqueue(before[p.chan], p, f)];
      && AllBlocked(r, futs, ports, |ports|, f) && AllOk(r, futs) && AllGrew(before, r) && AllQueued(r, ports, n + 1, f)
  {
    hide ChanOk, Blocked, Enqueue, Queued, Grew;
    var p := ports[n];
    var r := before[p.chan := Enqueue(before[p.chan], p, f)];
    assert Blocked(before[p.chan], futs, p, f);
    EnqueueOk(p.chan, before[p.chan], futs, p, f);
    EnqueueGrows(before[p.chan], futs, p, f);
    forall c | c in before ensures Grew(before[c], r[c]) {
      GrewSame(before[c]);
    }
    forall k | 0 <= k <= n ensures Queued(r[ports[k].chan], ports[k], f) {
      if k < n {
        QueuedGrows(before[ports[k].chan], r[ports[k].chan], ports[k], f);
      }
    }
  }

  lemma GrewSame(ch: Chan)
    ensures Grew(ch, ch)
  {
  }

  lemma AllGrewTransitive(a: map<ChanId, Chan>, b: map<ChanId, Chan>, d: map<ChanId, Chan>)
    requires AllGrew(a, b) && AllGrew(b, d)
    ensures AllGrew(a, d)
  {
    forall c | c in a ensures Grew(a[c], d[c]) {
      assert Grew(a[c], b[c]) && Grew(b[c], d[c]);
    }
  }

  lemma NothingEnqueued(chans: map<ChanId, Chan>, ports: seq<Port<ChanId>>, f: FutId)
    ensures AllGrew(chans, chans) && AllQueued(chans, ports, 0, f)
  {
    forall c | c in chans ensures Grew(chans[c], chans[c]) {
      GrewSame(chans[c]);
    }
  }

  lemma {:induction false} EnqueueAllOk(chans: map<ChanId, Chan>, futs: Futs<ChanId>, ports: seq<Port<ChanId>>, n: nat,
      f: FutId)
    requires n <= |ports| && PortsIn(chans, ports) && f in futs && futs[f].ports == ports
    requires AllBlocked(chans, futs, ports, |ports|, f) && AllOk(chans, futs)
    ensures var r := EnqueueAll(chans, ports, n, f);
      && AllBlocked(r, futs, ports, |ports|, f) && AllOk(r, futs) && AllGrew(chans, r) && AllQueued(r, ports, n, f)
  {
    hide AllOk, AllBlocked, Enqueue, AllGrew, AllQueued;
    if n == 0 {
      NothingEnqueued(chans, ports, f);
    } else {
      EnqueueAllOk(chans, futs, ports, n - 1, f);
      var before := EnqueueAll(chans, ports, n - 1, f);
      assert ports[n - 1].chan in before;
      EnqueueStep(before, futs, ports, n - 1, f);
      AllGrewTransitive(chans, before, EnqueueAll(chans, ports, n, f));
    }
  }

  lemma BlockedFresh(c: ChanId, ch: Chan, futs: Futs<ChanId>, p: Port<ChanId>, f: FutId, fut: Fut<ChanId>)
    requires ChanOk(c, ch, futs) && f !in futs && Blocked(ch, futs, p, f)
    ensures Blocked(ch, futs[f := fut], p, f)
  {
  }

  lemma AllBlockedFresh(w: World, ports: seq<Port<ChanId>>, fut: Fut<ChanId>)
    requires Sound(w) && Known(w, ports) && AllBlocked(w.chans, w.futs, ports, |ports|, w.next)
    ensures AllBlocked(w.chans, w.futs[w.next := fut], ports, |ports|, w.next)
  {
    SoundFresh(w);
    hide ChanOk, Blocked, FutOk;
    forall k | 0 <= k < |ports| ensures Blocked(w.chans[ports[k].chan], w.futs[w.next := fut], ports[k], w.next) {
      BlockedFresh(ports[k].chan, w.chans[ports[k].chan], w.futs, ports[k], w.next, fut);
    }
  }

  lemma SoundGrows(w: World, r: map<ChanId, Chan>)
    requires Sound(w) && AllOk(r, w.futs) && r.Keys == w.chans.Keys
    ensures Sound(w.(chans := r))
  {
    hide ChanOk, FutOk;
    forall g | g in w.futs ensures Known(w.(chans := r), w.futs[g].ports) {
      assert Known(w, w.futs[g].ports);
    }
  }

  lemma BalancedGrows(w: World, r: map<ChanId, Chan>)
    requires Balanced(w) && AllGrew(w.chans, r)
    ensures Balanced(w.(chans := r))
  {
    hide Total;
    assert forall c :: c in r ==> Grew(w.chans[c], r[c]);
  }

  lemma SoundAllOk(w: World)
    requires Sound(w)
    ensures AllOk(w.chans, w.futs)
  {
    hide ChanOk, FutOk;
  }

  /** A blocked selection starts to wait. */
  lemma WaitOk(w: World, ports: seq<Port<ChanId>>)
    requires WorldOk(w) && Known(w, ports) && AllBlocked(w.chans, w.futs, ports, |ports|, w.next)
    ensures var f := w.next;
      WorldOk(Net(EnqueueAll(w.chans, ports, |ports|, f), w.futs[f := Fut(Pending, ports, [])], f + 1))
  {
    hide Sound, NoneLost, BalancedBut, AllBlocked, AllQueued, AllOk, AllGrew, EnqueueAll;
    var f := w.next;
    var fut: Fut<ChanId> := Fut(Pending, ports, []);
    var w1 := w.(futs := w.futs[f := fut], next := f + 1);
    var r := EnqueueAll(w.chans, ports, |ports|, f);
    RecordOk(w, fut);
    AllBlockedFresh(w, ports, fut);
    SoundAllOk(w1);
    EnqueueAllOk(w.chans, w1.futs, ports, |ports|, f);
    WaitQueued(w, r, ports);
    SoundGrows(w1, r);
    BalancedGrows(w1, r);
    assert Net(r, w1.futs, f + 1) == w1.(chans := r);
  }

  lemma WaitQueued(w: World, r: map<ChanId, Chan>, ports: seq<Port<ChanId>>)
    requires NoneLost(w) && AllGrew(w.chans, r) && AllQueued(r, ports, |ports|, w.next)
    ensures NoneLost(Net(r, w.futs[w.next := Fut(Pending, ports, [])], w.next + 1))
  {
    hide Queued, Grew;
    var w2 := Net(r, w.futs[w.next := Fut(Pending, ports, [])], w.next + 1);
    forall g, k | Live(w2.futs, g) && 0 <= k < |w2.futs[g].ports| && w2.futs[g].ports[k].chan in r
      ensures Queued(r[w2.futs[g].ports[k].chan], w2.futs[g].ports[k], g)
    {
      if g != w.next {
        assert Live(w.futs, g) && Queued(w.chans[w.futs[g].ports[k].chan], w.futs[g].ports[k], g);
        QueuedGrows(w.chans[w.futs[g].ports[k].chan], r[w.futs[g].ports[k].chan], w.futs[g].ports[k], g);
      }
    }
  }

  lemma SelectOk(w: World, ports: seq<Port<ChanId>>, wait: bool)
    requires WorldOk(w) && Known(w, ports)
    ensures var w1 := SelectStep(w, ports, wait); WorldOk(w1) && Lasts(w.futs, w1.futs)
  {
    hide Sound, NoneLost, BalancedBut, Blocked, ChanOk, EnqueueAll, TryPorts;
    assert AllBlocked(w.chans, w.futs, ports, 0, w.next);
    TryPortsOk(w, ports, 0);
    var tried := TryPorts(w, ports, 0);
    var (w1, k, out) := (tried.0, tried.1, tried.2);
    assert w.next !in w.futs && w1.next !in w1.futs by { SoundFresh(w); SoundFresh(w1); }
    assert Known(w1, ports);
    if out.Some? {
      var fut := Fut(Resolved(out.value, ports[k].chan), ports, EffectOf(ports[k], out.value));
      assert ports[k] in ports;
      RecordOk(w1, fut);
    } else if !wait {
      RecordOk(w1, Fut(Defaulted, ports, []));
    } else {
      WaitOk(w1, ports);
    }
  }

  lemma SoundFresh(w: World)
    requires Sound(w)
    ensures w.next !in w.futs
  {
  }

  /** A future that is done never changes again. */
  ghost predicate Lasts(futs: Futs<ChanId>, futs1: Futs<ChanId>) {
    forall f :: f in futs ==>
      && f in futs1 && futs1[f].ports == futs[f].ports
      && (!futs[f].state.Pending? ==> futs1[f] == futs[f])
  }

  /** Nothing has gone through a channel that does not exist yet. */
  lemma {:induction false} UnusedTotal(w: World, c: ChanId, gave: bool, n: nat)
    requires Sound(w) && c !in w.chans
    ensures Total(w.futs, c, gave, n) == multiset{}
  {
    hide ChanOk;
    if n != 0 {
      UnusedTotal(w, c, gave, n - 1);
      if n - 1 in w.futs {
        assert FutOk(w.futs[n - 1]) && Known(w, w.futs[n - 1].ports);
        NoEffectOn(w.chans, w.futs[n - 1], c, gave);
      }
    }
  }

  lemma NoEffectOn(chans: map<ChanId, Chan>, fut: Fut<ChanId>, c: ChanId, gave: bool)
    requires FutOk(fut) && PortsIn(chans, fut.ports) && c !in chans
    ensures Moved(fut.effects, c, gave) == multiset{}
  {
    if fut.effects != [] {
      var e := fut.effects[0];
      var p: Port<ChanId> := match e case Got(d, _) => TakeFrom(d) case Gave(d, v) => PutTo(d, v);
      assert p in fut.ports;
    }
  }

  lemma OpenOk(w: World, c: ChanId, capacity: nat, policy: Policy)
    requires WorldOk(w) && c !in w.chans && (capacity == 0 ==> policy.Fixed?)
    ensures WorldOk(w.(chans := w.chans[c := NewChan(capacity, policy)]))
  {
    var ch := NewChan(capacity, policy);
    assert ChanOk(c, ch, w.futs);
    hide ChanOk, Total;
    OpenQueued(w, c, ch);
    OpenSound(w, c, ch);
    UnusedTotal(w, c, true, w.next);
    UnusedTotal(w, c, false, w.next);
    assert BalancedBut(w.(chans := w.chans[c := ch]), []) by {
      hide Sound, NoneLost;
    }
  }

  lemma OpenSound(w: World, c: ChanId, ch: Chan)
    requires Sound(w) && c !in w.chans && ChanOk(c, ch, w.futs)
    ensures Sound(w.(chans := w.chans[c := ch]))
  {
    hide ChanOk, FutOk;
    forall f | f in w.futs ensures Known(w.(chans := w.chans[c := ch]), w.futs[f].ports) {
      assert Known(w, w.futs[f].ports);
    }
  }

  lemma OpenQueued(w: World, c: ChanId, ch: Chan)
    requires Sound(w) && NoneLost(w) && c !in w.chans
    ensures NoneLost(w.(chans := w.chans[c := ch]))
  {
    hide ChanOk, FutOk, Queued;
    forall f, k | Live(w.futs, f) && 0 <= k < |w.futs[f].ports|
      ensures w.futs[f].ports[k].chan in w.chans && Queued(w.chans[w.futs[f].ports[k].chan], w.futs[f].ports[k], f)
    {
      assert Known(w, w.futs[f].ports);
    }
  }

  lemma CancelOk(w: World, f: FutId)
    requires WorldOk(w) && Live(w.futs, f)
    ensures WorldOk(w.(futs := w.futs[f := w.futs[f].(state := Cancelled)]))
  {
    var futs := w.futs[f := w.futs[f].(state := Cancelled)];
    var w1 := w.(futs := futs);
    assert FutOk(w.futs[f]) && w.futs[f].effects == [];
    assert Evolves(w.futs, futs);
    hide ChanOk, FutOk;
    forall c | c in w.chans ensures ChanOk(c, w.chans[c], futs) {
      ChanOkEvolves(c, w.chans[c], w.futs, futs);
    }
    forall c, gave ensures Total(futs, c, gave, w.next) == Total(w.futs, c, gave, w.next) {
      TotalResolve(w.futs, f, futs[f], c, gave, w.next);
    }
    assert Sound(w1) && BalancedBut(w1, []);
    forall g, k | Live(futs, g) && 0 <= k < |futs[g].ports| && futs[g].ports[k].chan in w.chans
      ensures Queued(w.chans[futs[g].ports[k].chan], futs[g].ports[k], g)
    {
      assert Live(w.futs, g);
    }
  }

  lemma ShutOk(w: World, c: ChanId)
    requires WorldOk(w) && c in w.chans
    ensures var (ch, futs) := Close(c, w.chans[c], w.futs);
      WorldOk(w.(chans := w.chans[c := ch], futs := futs)) && Evolves(w.futs, futs)
  {
    hide Moves, ChanOk, Evolves, NoneLost, BalancedBut, Close, Sound;
    SoundClean(w);
    SoundChan(w, c);
    CloseOk(c, w.chans[c], w.futs);
    CloseMoves(c, w.chans[c], w.futs, w.next);
    var done := Close(c, w.chans[c], w.futs);
    ChannelStep(w, c, done.0, done.1, []);
  }

  lemma TidyOk(w: World, c: ChanId)
    requires WorldOk(w) && c in w.chans
    ensures WorldOk(w.(chans := w.chans[c := Discard(w.chans[c], w.futs)]))
  {
    hide Moves, ChanOk, NoneLost, BalancedBut, Discard, Sound;
    SoundClean(w);
    SoundChan(w, c);
    DiscardOk(c, w.chans[c], w.futs);
    DiscardMoves(c, w.chans[c], w.futs, w.next);
    assert Evolves(w.futs, w.futs);
    ChannelStep(w, c, Discard(w.chans[c], w.futs), w.futs, []);
  }

  /** Every event keeps the whole invariant, and no event changes a future that is done. */
  lemma StepOk(w: World, e: Event)
    requires WorldOk(w)
    ensures WorldOk(Step(w, e)) && Lasts(w.futs, Step(w, e).futs)
  {
    hide WorldOk, SelectStep, Close, Discard, Known;
    if Admitted(w, e) {
      match e
      case Open(c, capacity, policy) => OpenOk(w, c, capacity, policy);
      case Select(ports, wait) => SelectOk(w, ports, wait);
      case Shut(c) => ShutOk(w, c);
      case Cancel(f) =>
        if Live(w.futs, f) {
          CancelOk(w, f);
        }
      case Tidy(c) => TidyOk(w, c);
    }
  }

  lemma {:induction false} RunOk(run: seq<Event>)
    ensures WorldOk(Exec(Start(), run))
    decreases |run|
  {
    if run == [] {
      assert Sound(Start()) && NoneLost(Start()) && Balanced(Start());
    } else {
      RunOk(run[..|run| - 1]);
      StepOk(Exec(Start(), run[..|run| - 1]), run[|run| - 1]);
    }
  }

  // ------------------------------------------------------------------
  // The properties of every run

  lemma {:induction false} RunLasts(w: World, more: seq<Event>)
    requires WorldOk(w)
    ensures WorldOk(Exec(w, more)) && Lasts(w.futs, Exec(w, more).futs)
    decreases |more|
  {
    hide WorldOk, Step;
    if more == [] {
    } else {
      var before := Exec(w, more[..|more| - 1]);
      RunLasts(w, more[..|more| - 1]);
      StepOk(before, more[|more| - 1]);
    }
  }

  /**
    A selection is won at most once, by one of its own operations, and exactly
    that operation moved a value; afterwards nothing changes it.
  */
  lemma WonOnce(run: seq<Event>, more: seq<Event>, f: FutId)
    requires f in Exec(Start(), run).futs
    ensures var w := Exec(Start(), run);
      && FutOk(w.futs[f])
      && f in Exec(w, more).futs
      && (!w.futs[f].state.Pending? ==> Exec(w, more).futs[f] == w.futs[f])
  {
    hide Step, NoneLost, BalancedBut, ChanOk;
    RunOk(run);
    RunLasts(Exec(Start(), run), more);
  }

  /**
    A selection still waiting cannot proceed: each of its takes faces an open
    empty channel without a put of another selection, and each of its puts an
    open full channel without a take of another selection.
  */
  lemma WaitingIsBlocked(run: seq<Event>, f: FutId, p: Port<ChanId>)
    requires var w := Exec(Start(), run); Live(w.futs, f) && p in w.futs[f].ports
    ensures var w := Exec(Start(), run);
      && p.chan in w.chans && Queued(w.chans[p.chan], p, f) && Blocked(w.chans[p.chan], w.futs, p, f)
  {
    var w := Exec(Start(), run);
    RunOk(run);
    var k :| 0 <= k < |w.futs[f].ports| && w.futs[f].ports[k] == p;
    assert Known(w, w.futs[f].ports);
    var ch := w.chans[p.chan];
    assert Queued(ch, p, f);
    QueuedBlocked(p.chan, ch, w.futs, p, f);
  }

  lemma QueuedBlocked(c: ChanId, ch: Chan, futs: Futs<ChanId>, p: Port<ChanId>, f: FutId)
    requires ChanOk(c, ch, futs) && Queued(ch, p, f) && Live(futs, f)
    ensures Blocked(ch, futs, p, f)
  {
    hide Kept;
    match p
    case TakeFrom(_) => var i :| 0 <= i < |ch.takes| && ch.takes[i] == f;
    case PutTo(_, v) => var j :| 0 <= j < |ch.puts| && ch.puts[j] == Offer(v, f);
  }

  /** Capacity, order and conservation of every channel under its policy. */
  lemma ChannelConserves(run: seq<Event>, c: ChanId)
    requires c in Exec(Start(), run).chans
    ensures var w := Exec(Start(), run);
      var ch := w.chans[c];
      && |ch.buffer| <= ch.capacity
      && (ch.policy.Fixed? ==> ch.arrived == ch.delivered + ch.buffer)
      && (ch.policy.Sliding? ==> ch.arrived == ch.removed + ch.buffer && Subsequence(ch.delivered, ch.removed))
      && (ch.policy.Dropping? ==> ch.entered == ch.delivered + ch.buffer && Subsequence(ch.entered, ch.arrived))
      && multiset(ch.arrived) == Total(w.futs, c, true, w.next)
      && multiset(ch.delivered) == Total(w.futs, c, false, w.next)
  {
    RunOk(run);
    assert ChanOk(c, Exec(Start(), run).chans[c], Exec(Start(), run).futs);
  }

  /** No value is taken from a channel more often than it was successfully put there. */
  lemma NothingInvented(run: seq<Event>, c: ChanId)
    requires c in Exec(Start(), run).chans
    ensures var w := Exec(Start(), run); Total(w.futs, c, false, w.next) <= Total(w.futs, c, true, w.next)
  {
    var w := Exec(Start(), run);
    var ch := w.chans[c];
    ChannelConserves(run, c);
    match ch.policy
    case Fixed =>
    case Sliding => SubsequenceCounts(ch.delivered, ch.removed);
    case Dropping => SubsequenceCounts(ch.entered, ch.arrived);
  }

  lemma {:induction false} SubsequenceCounts(s: seq<V>, t: seq<V>)
    requires Subsequence(s, t)
    ensures multiset(s) <= multiset(t)
    decreases |t|
  {
    if s != [] {
      var (s1, t1) := (s[..|s| - 1], t[..|t| - 1]);
      assert s == s1 + [s[|s| - 1]] && t == t1 + [t[|t| - 1]];
      if s[|s| - 1] == t[|t| - 1] && Subsequence(s1, t1) {
        SubsequenceCounts(s1, t1);
      } else {
        SubsequenceCounts(s, t1);
      }
    }
  }
}
