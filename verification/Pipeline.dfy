/**
  The ordered parallel pipeline (src/basilisp/concurrent_channel.py:341-405).

  Worker tasks finish in any order: each wait returns some nonempty set of the
  tasks in flight. The source is the sequence of values its takes return until
  nil; the destination refuses every put after its first `room` ones. An item
  that a transducer or an error handler gives may be nil, written `None`, which
  no channel takes.
*/
module Pipeline {
  import opened Prelude

  type In(!new)
  type Out(!new)
  type Exn(==, !new)

  type Items = seq<Option<Out>>

  predicate NoNil(items: Items) { forall i :: 0 <= i < |items| ==> items[i].Some? }

  /** `nilRefused` is the exception that a nil value raises. */
  datatype Job = Job(
    source: seq<In>,
    xform: In -> Result<Items, Exn>,
    handler: Option<(Exn, In) -> Result<Option<Items>, Exn>>,
    room: Option<nat>,
    closeOutput: bool,
    nilRefused: Exn)

  datatype End = Finished | DestinationClosed | Failed(error: Exn)

  /** `_transduce_one`: the items a transducer emits for one input, none of them nil. */
  function Transduced(job: Job, v: In): Result<Items, Exn> {
    var r := job.xform(v);
    if r.Ok? && !NoNil(r.value) then Err(job.nilRefused) else r
  }

  /** What one input contributes: its results, the handler's replacement, or a failure of the pipeline. */
  function Emitted(job: Job, v: In): Result<Items, Exn> {
    match Transduced(job, v)
    case Ok(values) => Ok(values)
    case Err(e) =>
      match job.handler
      case None => Err(e)
      case Some(h) =>
        match h(e, v)
        case Err(e1) => Err(e1)
        case Ok(None) => Ok([])
        case Ok(Some(values)) => Ok(values)
  }

  /** The transducer raises, or gives a nil, which raises too. */
  ghost predicate Raises(job: Job, v: In, e: Exn) {
    job.xform(v) == Err(e) || (job.xform(v).Ok? && None in job.xform(v).value && e == job.nilRefused)
  }

  /**
    An input contributes the items its transducer emits, or what the handler
    gives instead of a failure; it fails with the handler's own exception, or,
    when there is no handler, with the one raised.
  */
  lemma EmittedMeans(job: Job, v: In)
    ensures forall items :: Emitted(job, v) == Ok(items) <==>
      || (job.xform(v) == Ok(items) && None !in items)
      || (exists e :: Raises(job, v, e) && job.handler.Some? && job.handler.value(e, v) == Ok(Some(items)))
      || (exists e :: Raises(job, v, e) && job.handler.Some? && job.handler.value(e, v) == Ok(None) && items == [])
    ensures forall e :: Emitted(job, v) == Err(e) <==>
      || (Raises(job, v, e) && job.handler.None?)
      || (exists e0 :: Raises(job, v, e0) && job.handler.Some? && job.handler.value(e0, v) == Err(e))
  {
    var r := job.xform(v);
    if r.Ok? {
      assert None in r.value <==> !NoNil(r.value);
    }
    assert forall e :: Raises(job, v, e) <==> Transduced(job, v) == Err(e);
    hide Raises, Transduced, NoNil;
    if Transduced(job, v).Err? {
      assert Raises(job, v, Transduced(job, v).error);
    }
  }

  predicate AllEmit(job: Job, n: nat)
    requires n <= |job.source|
  {
    forall i :: 0 <= i < n ==> Emitted(job, job.source[i]).Ok?
  }

  /** The results of the first `n` inputs, in input order. */
  function InOrder(job: Job, n: nat): Items
    requires n <= |job.source| && AllEmit(job, n)
  {
    if n == 0 then [] else InOrder(job, n - 1) + Emitted(job, job.source[n - 1]).value
  }

  lemma {:induction false} InOrderGrows(job: Job, m: nat, n: nat)
    requires m <= n <= |job.source| && AllEmit(job, n)
    ensures InOrder(job, m) <= InOrder(job, n)
  {
    if m < n {
      InOrderGrows(job, m, n - 1);
    }
  }

  /** The tasks in flight and the results held back are exactly the inputs taken and not yet emitted. */
  ghost predicate Window(job: Job, pending: map<nat, In>, completed: map<nat, Items>, nextOutput: nat,
      nextSequence: nat)
  {
    && nextOutput <= nextSequence <= |job.source|
    && (forall s :: s in pending || s in completed <==> nextOutput <= s < nextSequence)
    && (forall s :: s in pending ==> s !in completed && s < |job.source| && pending[s] == job.source[s])
    && (forall s :: s in completed ==> s < |job.source| && Emitted(job, job.source[s]) == Ok(completed[s]))
  }

  /** What a destination can have taken: no nil, and no more than it has room for. */
  predicate Fits(job: Job, out: Items) { NoNil(out) && (job.room.Some? ==> |out| <= job.room.value) }

  datatype PutResult = Accepted | Refused | Raised

  /** `destination.put`, for each value in turn; a nil raises even when the destination is closed. */
  method PutAll(job: Job, before: Items, values: Items) returns (out: Items, r: PutResult)
    requires Fits(job, before)
    ensures before <= out <= before + values && Fits(job, out)
    ensures r.Accepted? ==> out == before + values
    ensures r.Refused? ==> job.room.Some? && |out| == job.room.value
    ensures !r.Accepted? ==> |out| < |before + values| && (r.Raised? <==> (before + values)[|out|].None?)
  {
    out, r := before, Accepted;
    var i := 0;
    while i < |values|
      invariant 0 <= i <= |values| && out == before + values[..i] && Fits(job, out)
    {
      if values[i].None? {
        return out, Raised;
      }
      if job.room.Some? && |out| >= job.room.value {
        return out, Refused;
      }
      out := out + [values[i]];
      i := i + 1;
    }
  }

  lemma WindowBounds(job: Job, pending: map<nat, In>, completed: map<nat, Items>, nextOutput: nat, nextSequence: nat)
    requires Window(job, pending, completed, nextOutput, nextSequence)
    ensures nextOutput <= nextSequence <= |job.source| && forall k :: k in pending ==> k < nextSequence
  {
  }

  lemma TakeOne(job: Job, pending: map<nat, In>, completed: map<nat, Items>, nextOutput: nat, n: nat)
    requires Window(job, pending, completed, nextOutput, n) && n < |job.source|
    ensures Window(job, pending[n := job.source[n]], completed, nextOutput, n + 1)
    ensures |pending[n := job.source[n]]| == |pending| + 1
  {
    assert n !in pending;
  }

  /** Takes inputs while fewer than `parallelism` tasks are in flight. */
  method Admit(job: Job, parallelism: nat, pending0: map<nat, In>, ghost completed: map<nat, Items>,
      ghost nextOutput: nat, nextSequence0: nat, inputClosed0: bool)
      returns (pending: map<nat, In>, nextSequence: nat, inputClosed: bool)
    requires Window(job, pending0, completed, nextOutput, nextSequence0) && |pending0| <= parallelism
    requires inputClosed0 ==> nextSequence0 == |job.source|
    ensures Window(job, pending, completed, nextOutput, nextSequence) && |pending| <= parallelism
    ensures inputClosed ==> nextSequence == |job.source|
    ensures nextSequence <= |job.source| && (inputClosed || |pending| == parallelism)
    ensures |pending| - nextSequence == |pending0| - nextSequence0
    ensures inputClosed0 ==> inputClosed
  {
    WindowBounds(job, pending0, completed, nextOutput, nextSequence0);
    hide Window;
    pending, nextSequence, inputClosed := pending0, nextSequence0, inputClosed0;
    while !inputClosed && |pending| < parallelism
      invariant Window(job, pending, completed, nextOutput, nextSequence) && |pending| <= parallelism
      invariant nextSequence <= |job.source| && (inputClosed ==> nextSequence == |job.source|)
      invariant |pending| - nextSequence == |pending0| - nextSequence0
      invariant inputClosed0 ==> inputClosed
      decreases |job.source| - nextSequence, if inputClosed then 0 else 1
    {
      if nextSequence == |job.source| {
        inputClosed := true;
      } else {
        TakeOne(job, pending, completed, nextOutput, nextSequence);
        pending := pending[nextSequence := job.source[nextSequence]];
        nextSequence := nextSequence + 1;
      }
    }
  }

  /** A task that is done becomes a result. */
  lemma CompleteOne(job: Job, pending: map<nat, In>, completed: map<nat, Items>, nextOutput: nat, nextSequence: nat,
      s: nat, values: Items)
    requires Window(job, pending, completed, nextOutput, nextSequence) && s in pending
    requires Emitted(job, pending[s]) == Ok(values)
    ensures Window(job, map k | k in pending && k != s :: pending[k], completed[s := values], nextOutput, nextSequence)
  {
  }

  lemma PendingInput(job: Job, pending: map<nat, In>, completed: map<nat, Items>, nextOutput: nat, nextSequence: nat,
      s: nat)
    requires Window(job, pending, completed, nextOutput, nextSequence) && s in pending
    ensures s < |job.source| && pending[s] == job.source[s]
  {
  }

  /** Collects the finished tasks in input order; stops at the first failure no handler replaces. */
  method Collect(job: Job, pending0: map<nat, In>, completed0: map<nat, Items>, nextOutput: nat, nextSequence: nat,
      done: set<nat>)
      returns (pending: map<nat, In>, completed: map<nat, Items>, failure: Option<Exn>, ghost culprit: nat)
    requires Window(job, pending0, completed0, nextOutput, nextSequence)
    requires done <= pending0.Keys && done != {}
    ensures pending.Keys <= pending0.Keys
    ensures failure.None? ==>
      && Window(job, pending, completed, nextOutput, nextSequence)
      && pending.Keys == pending0.Keys - done
    ensures failure.Some? ==>
      && culprit < |job.source| && Emitted(job, job.source[culprit]) == Err(failure.value)
      && culprit !in pending
      && Window(job, pending[culprit := job.source[culprit]], completed, nextOutput, nextSequence)
  {
    WindowBounds(job, pending0, completed0, nextOutput, nextSequence);
    hide Window;
    pending, completed, failure, culprit := pending0, completed0, None, 0;
    var s := nextOutput;
    while s < nextSequence
      invariant nextOutput <= s <= nextSequence
      invariant Window(job, pending, completed, nextOutput, nextSequence)
      invariant forall k :: k in pending.Keys <==> k in pending0.Keys && !(k in done && k < s)
    {
      if s in pending && s in done {
        var value := pending[s];
        PendingInput(job, pending, completed, nextOutput, nextSequence, s);
        ghost var before := pending;
        pending := map k | k in pending && k != s :: pending[k];
        assert pending[s := value] == before;
        culprit := s;
        var values;
        match Transduced(job, value) {
          case Ok(emitted) => values := emitted;
          case Err(e) =>
            if job.handler.None? {
              assert Emitted(job, job.source[s]) == Err(e);
              return pending, completed, Some(e), s;
            }
            match job.handler.value(e, value) {
              case Err(e1) =>
                assert Emitted(job, job.source[s]) == Err(e1);
                return pending, completed, Some(e1), s;
              case Ok(replacement) => values := if replacement.None? then [] else replacement.value;
            }
        }
        CompleteOne(job, before, completed, nextOutput, nextSequence, s, values);
        completed := completed[s := values];
      }
      s := s + 1;
    }
  }

  /** What has been emitted so far is the results of the first `n` inputs. */
  ghost predicate EmittedUpTo(job: Job, out: Items, n: nat) {
    Fits(job, out) && n <= |job.source| && AllEmit(job, n) && out == InOrder(job, n)
  }

  /** The output stops within the results of the first `n` inputs: at a nil, or else at the end of the room. */
  ghost predicate StopsWithin(job: Job, out: Items, n: nat, raised: bool) {
    && n <= |job.source| && AllEmit(job, n) && Fits(job, out)
    && out <= InOrder(job, n) && |out| < |InOrder(job, n)|
    && (raised <==> InOrder(job, n)[|out|].None?)
    && (raised || (job.room.Some? && |out| == job.room.value))
  }

  lemma NextInOrder(job: Job, n: nat, values: Items)
    requires n < |job.source| && AllEmit(job, n) && Emitted(job, job.source[n]) == Ok(values)
    ensures AllEmit(job, n + 1) && InOrder(job, n + 1) == InOrder(job, n) + values
  {
  }

  /** Emits every result that is next in input order. */
  method Flush(job: Job, pending: map<nat, In>, completed0: map<nat, Items>, out0: Items, nextOutput0: nat,
      nextSequence: nat) returns (completed: map<nat, Items>, out: Items, nextOutput: nat, r: PutResult)
    requires Window(job, pending, completed0, nextOutput0, nextSequence) && EmittedUpTo(job, out0, nextOutput0)
    ensures r.Accepted? ==>
      && Window(job, pending, completed, nextOutput, nextSequence) && EmittedUpTo(job, out, nextOutput)
      && nextOutput !in completed
    ensures !r.Accepted? ==>
      && StopsWithin(job, out, nextOutput + 1, r.Raised?) && InOrder(job, nextOutput) <= out
      && nextOutput !in completed && nextOutput !in pending
      && Window(job, pending, completed[nextOutput := Emitted(job, job.source[nextOutput]).value], nextOutput,
        nextSequence)
  {
    hide Emitted, AllEmit, InOrder, NoNil;
    completed, out, nextOutput, r := completed0, out0, nextOutput0, Accepted;
    while nextOutput in completed
      invariant Window(job, pending, completed, nextOutput, nextSequence) && EmittedUpTo(job, out, nextOutput)
      invariant r.Accepted?
      decreases nextSequence - nextOutput
    {
      var values := completed[nextOutput];
      completed := map k | k in completed && k != nextOutput :: completed[k];
      NextInOrder(job, nextOutput, values);
      out, r := PutAll(job, out, values);
      if !r.Accepted? {
        return;
      }
      nextOutput := nextOutput + 1;
    }
  }

  /** How a run ends: a failure is that of some input, or of a nil among the results. */
  ghost predicate Stopped(job: Job, out: Items, end: End) {
    match end
    case Finished => EmittedUpTo(job, out, |job.source|)
    case DestinationClosed => exists n: nat :: StopsWithin(job, out, n, false)
    case Failed(e) =>
      || (exists i :: 0 <= i < |job.source| && Emitted(job, job.source[i]) == Err(e))
      || (e == job.nilRefused && exists n: nat :: StopsWithin(job, out, n, true))
  }

  /** Where a run stopped: results emitted, inputs taken, results held back, and the input it stopped for. */
  datatype Halt = Halt(emitted: nat, taken: nat, held: map<nat, Items>, culprit: nat)

  /**
    A stop before the end: the inputs taken are those emitted, those whose
    results are held back, the one that failed or whose results stopped the
    output, and those still in flight.
  */
  ghost predicate HaltedAt(job: Job, out: Items, end: End, inFlight: set<nat>, at: Halt) {
    && at.emitted <= at.culprit < at.taken <= |job.source|
    && AllEmit(job, at.emitted) && InOrder(job, at.emitted) <= out
    && at.culprit !in at.held
    && (forall s :: s in at.held ==> at.emitted <= s < at.taken && Emitted(job, job.source[s]) == Ok(at.held[s]))
    && (forall s :: s in inFlight <==> at.emitted <= s < at.taken && s !in at.held && s != at.culprit)
    && match end
       case Finished => false
       case DestinationClosed => at.culprit == at.emitted && StopsWithin(job, out, at.emitted + 1, false)
       case Failed(e) =>
         || Emitted(job, job.source[at.culprit]) == Err(e)
         || (e == job.nilRefused && at.culprit == at.emitted && StopsWithin(job, out, at.emitted + 1, true))
  }

  /** A window from which one input is gone. */
  lemma GoneFromWindow(job: Job, pending: map<nat, In>, completed: map<nat, Items>, nextOutput: nat, nextSequence: nat,
      c: nat, asPending: bool, v: In, values: Items)
    requires c !in pending && c !in completed
    requires if asPending then Window(job, pending[c := v], completed, nextOutput, nextSequence)
      else Window(job, pending, completed[c := values], nextOutput, nextSequence)
    ensures nextOutput <= c < nextSequence <= |job.source|
    ensures forall s :: s in completed ==>
      nextOutput <= s < nextSequence && Emitted(job, job.source[s]) == Ok(completed[s])
    ensures forall s :: s in pending <==> nextOutput <= s < nextSequence && s !in completed && s != c
  {
    if asPending {
      assert forall s :: s in pending[c := v] <==> s in pending || s == c;
    } else {
      assert forall s :: s in completed[c := values] <==> s in completed || s == c;
      assert forall s :: s in completed ==> completed[c := values][s] == completed[s];
    }
  }

  /** The output is a prefix of the results of inputs that all emit. */
  ghost predicate Prefix(job: Job, out: Items) {
    Fits(job, out) && exists n :: 0 <= n <= |job.source| && AllEmit(job, n) && out <= InOrder(job, n)
  }

  /** An output that stops within some results does not fit the destination whole. */
  lemma StopsShort(job: Job, out: Items, n: nat, raised: bool)
    requires StopsWithin(job, out, n, raised) && AllEmit(job, |job.source|)
    ensures !Fits(job, InOrder(job, |job.source|))
  {
    InOrderGrows(job, n, |job.source|);
    assert InOrder(job, |job.source|)[|out|] == InOrder(job, n)[|out|];
  }

  /** An early stop means some input fails, or the results do not fit the destination. */
  lemma NotFinished(job: Job, out: Items, end: End)
    requires Stopped(job, out, end) && !end.Finished?
    ensures !(AllEmit(job, |job.source|) && Fits(job, InOrder(job, |job.source|)))
  {
    if AllEmit(job, |job.source|) {
      match end
      case DestinationClosed =>
        var n: nat :| StopsWithin(job, out, n, false);
        StopsShort(job, out, n, false);
      case Failed(_) =>
        var n: nat :| StopsWithin(job, out, n, true);
        StopsShort(job, out, n, true);
    }
  }

  lemma FailureHalts(job: Job, pending: map<nat, In>, completed: map<nat, Items>, out: Items, nextOutput: nat,
      nextSequence: nat, c: nat, e: Exn)
    requires c !in pending && c < |job.source| && Emitted(job, job.source[c]) == Err(e)
    requires Window(job, pending[c := job.source[c]], completed, nextOutput, nextSequence)
    requires EmittedUpTo(job, out, nextOutput)
    ensures HaltedAt(job, out, Failed(e), pending.Keys, Halt(nextOutput, nextSequence, completed, c))
    ensures Prefix(job, out) && Stopped(job, out, Failed(e))
  {
    assert c in pending[c := job.source[c]];
    GoneFromWindow(job, pending, completed, nextOutput, nextSequence, c, true, job.source[c], []);
  }

  lemma RefusalHalts(job: Job, pending: map<nat, In>, completed: map<nat, Items>, out: Items, nextOutput: nat,
      nextSequence: nat, raised: bool)
    requires StopsWithin(job, out, nextOutput + 1, raised) && nextOutput !in completed && nextOutput !in pending
    requires InOrder(job, nextOutput) <= out
    requires Window(job, pending, completed[nextOutput := Emitted(job, job.source[nextOutput]).value], nextOutput,
      nextSequence)
    ensures var end := if raised then Failed(job.nilRefused) else DestinationClosed;
      && HaltedAt(job, out, end, pending.Keys, Halt(nextOutput, nextSequence, completed, nextOutput))
      && Prefix(job, out) && Stopped(job, out, end)
  {
    GoneFromWindow(job, pending, completed, nextOutput, nextSequence, nextOutput, false, job.source[nextOutput],
      Emitted(job, job.source[nextOutput]).value);
  }

  /** One wait, and what follows it; the tasks in flight become fewer. */
  method Round(job: Job, pending0: map<nat, In>, completed0: map<nat, Items>, out0: Items, nextOutput0: nat,
      nextSequence: nat)
      returns (pending: map<nat, In>, completed: map<nat, Items>, out: Items, nextOutput: nat, stop: Option<End>,
        ghost at: Halt)
    requires Window(job, pending0, completed0, nextOutput0, nextSequence) && EmittedUpTo(job, out0, nextOutput0)
    requires pending0 != map[]
    ensures |pending| <= |pending0|
    ensures stop.None? ==>
      && Window(job, pending, completed, nextOutput, nextSequence) && EmittedUpTo(job, out, nextOutput)
      && nextOutput !in completed && |pending| < |pending0|
    ensures stop.Some? ==>
      && Prefix(job, out) && Stopped(job, out, stop.value) && !stop.value.Finished?
      && HaltedAt(job, out, stop.value, pending.Keys, at)
  {
    assert pending0.Keys <= pending0.Keys && pending0.Keys != {};
    var done: set<nat> :| done <= pending0.Keys && done != {};
    var failure;
    ghost var culprit;
    pending, completed, failure, culprit := Collect(job, pending0, completed0, nextOutput0, nextSequence, done);
    Shrinks(pending0.Keys, pending.Keys);
    out, nextOutput, stop := out0, nextOutput0, None;
    at := Halt(nextOutput, nextSequence, completed, culprit);
    if failure.Some? {
      FailureHalts(job, pending, completed, out, nextOutput, nextSequence, culprit, failure.value);
      stop := Some(Failed(failure.value));
      return;
    }
    var r;
    completed, out, nextOutput, r := Flush(job, pending, completed, out, nextOutput, nextSequence);
    if !r.Accepted? {
      stop := Some(if r.Raised? then Failed(job.nilRefused) else DestinationClosed);
      at := Halt(nextOutput, nextSequence, completed, nextOutput);
      RefusalHalts(job, pending, completed, out, nextOutput, nextSequence, r.Raised?);
    }
  }

  lemma Starts(job: Job)
    ensures Window(job, map[], map[], 0, 0) && EmittedUpTo(job, [], 0)
  {
  }

  /** With every input taken and nothing in flight, everything has been emitted. */
  lemma Finishes(job: Job, completed: map<nat, Items>, out: Items, nextOutput: nat)
    requires Window(job, map[], completed, nextOutput, |job.source|) && EmittedUpTo(job, out, nextOutput)
    requires nextOutput !in completed
    ensures Prefix(job, out) && Stopped(job, out, Finished)
    ensures AllEmit(job, |job.source|) && Fits(job, InOrder(job, |job.source|))
  {
    assert nextOutput == |job.source|;
  }

  /** The loop of `_pipeline`; the tasks still in flight when it stops are left. */
  method Loop(job: Job, parallelism: nat)
      returns (out: Items, end: End, left: map<nat, In>, ghost peak: nat, ghost at: Halt)
    requires parallelism >= 1
    ensures |left| <= peak <= parallelism
    ensures Prefix(job, out) && Stopped(job, out, end)
    ensures end.Finished? <==> AllEmit(job, |job.source|) && Fits(job, InOrder(job, |job.source|))
    ensures if end.Finished? then left == map[] else HaltedAt(job, out, end, left.Keys, at)
  {
    Starts(job);
    hide Window, EmittedUpTo, HaltedAt, Stopped, Prefix, AllEmit, Fits, InOrder;
    var pending: map<nat, In> := map[];
    var completed: map<nat, Items> := map[];
    var inputClosed, nextSequence, nextOutput := false, 0, 0;
    out, peak, at := [], 0, Halt(0, 0, map[], 0);
    while !inputClosed || pending != map[]
      invariant Window(job, pending, completed, nextOutput, nextSequence)
      invariant EmittedUpTo(job, out, nextOutput)
      invariant nextOutput !in completed
      invariant |pending| <= peak <= parallelism
      invariant nextSequence <= |job.source| && (inputClosed ==> nextSequence == |job.source|)
      decreases |job.source| - nextSequence + |pending|, if inputClosed then 0 else 1
    {
      pending, nextSequence, inputClosed :=
        Admit(job, parallelism, pending, completed, nextOutput, nextSequence, inputClosed);
      peak := if |pending| > peak then |pending| else peak;
      if pending != map[] {
        var stop;
        pending, completed, out, nextOutput, stop, at :=
          Round(job, pending, completed, out, nextOutput, nextSequence);
        if stop.Some? {
          NotFinished(job, out, stop.value);
          return out, stop.value, pending, peak, at;
        }
      }
    }
    Finishes(job, completed, out, nextOutput);
    end, left := Finished, pending;
  }

  /**
    `_pipeline`. For every order of completion the output is a prefix of the
    results in input order, and all of them on normal completion; `peak` is the
    largest number of tasks ever in flight. However the loop ends, exactly the
    tasks still in flight are cancelled, and the destination is closed if asked.
  */
  method Run(job: Job, parallelism: nat)
      returns (out: Items, end: End, cancelled: set<nat>, closed: bool, ghost peak: nat, ghost at: Halt)
    requires parallelism >= 1
    ensures |cancelled| <= peak <= parallelism
    ensures Prefix(job, out) && Stopped(job, out, end)
    ensures end.Finished? <==> AllEmit(job, |job.source|) && Fits(job, InOrder(job, |job.source|))
    ensures if end.Finished? then cancelled == {} else HaltedAt(job, out, end, cancelled, at)
    ensures closed == job.closeOutput
  {
    var left;
    out, end, left, peak, at := Loop(job, parallelism);
    cancelled := left.Keys;
    closed := job.closeOutput;
  }

  lemma Shrinks(before: set<nat>, after: set<nat>)
    requires after <= before
    ensures |after| <= |before| && (after != before ==> |after| < |before|)
  {
    assert before == after + (before - after);
  }
}
