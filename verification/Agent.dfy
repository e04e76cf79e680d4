/**
  Agents (src/basilisp/lang/agent.py:109-315).

  Every section that runs under the agent's lock is one function on `Core`;
  threads interleave between sections. The executor is arbitrary: it may refuse
  a task by raising, start it at any later time and at most once, or drop it
  before it starts.
*/
module Agent {
  import opened Prelude

  type S(!new)
  type Exn(!new)

  /** An action with its arguments and the agent's validator: a new state, or the exception raised. */
  datatype Action = Action(id: nat, run: S -> Result<S, Exn>)

  datatype Mode = Fail | Continue

  datatype Core = Core(state: S, queue: seq<Action>, active: bool, error: Option<Exn>, mode: Mode)

  /** What became of a call to the executor. */
  datatype Sched = Nothing | Accepted | Refused(error: Exn)

  /** `_schedule_next`, with the removal its callers do when the executor raises. */
  function ScheduleNext(core: Core, refuse: Option<Exn>): (Core, Sched) {
    if core.queue == [] then (core.(active := false), Nothing)
    else
      match refuse
      case None => (core.(active := true), Accepted)
      case Some(e) => (core.(active := true, queue := core.queue[1..]), Refused(e))
  }

  /** A failed agent takes no action. */
  predicate Failed(core: Core) { core.error.Some? && core.mode.Fail? }

  /** `submit`. */
  function Submit(core: Core, a: Action, refuse: Option<Exn>): (Core, Sched) {
    if Failed(core) then (core, Nothing)
    else
      var core1 := core.(queue := core.queue + [a]);
      if core1.active then (core1, Nothing) else ScheduleNext(core1, refuse)
  }

  /** The first section of `_run_one`. */
  function Take(core: Core): (Core, Option<Action>) {
    if core.queue == [] then (core.(active := false), None)
    else (core.(queue := core.queue[1..]), Some(core.queue[0]))
  }

  /** The last section of `_run_one`. */
  function Publish(core: Core, s: S, refuse: Option<Exn>): (Core, Sched) {
    ScheduleNext(core.(state := s, active := false), refuse)
  }

  /** The two sections of `_handle_failure`, before and after the handler runs. */
  function BeginFailure(core: Core, e: Exn): Core { core.(error := Some(e)) }

  function EndFailure(core: Core, raised: bool, refuse: Option<Exn>): (Core, Sched) {
    var core1 := core.(active := false);
    match core.mode
    case Fail => (core1, Nothing)
    case Continue => ScheduleNext(if raised then core1 else core1.(error := None), refuse)
  }

  /** `_handle_pre_start_failure`: true when there is a failure to handle. */
  function DropUnstarted(core: Core): (Core, bool)
    requires core.active ==> core.queue != []
  {
    if !core.active then (core, false) else (core.(queue := core.queue[1..]), true)
  }

  /** `restart`; false when it raises. */
  function Restart(core: Core, state: Option<S>, valid: bool, clear: bool, refuse: Option<Exn>): (Core, bool, Sched) {
    if core.active || (state.Some? && !valid) then (core, false, Nothing)
    else
      var core1 := core.(state := if state.Some? then state.value else core.state, error := None,
                         queue := if clear then [] else core.queue);
      if core1.queue == [] then (core1, true, Nothing)
      else var (core2, sched) := ScheduleNext(core1, refuse); (core2, true, sched)
  }

  // ------------------------------------------------------------------
  // The system: the agent and the threads working for it

  datatype Phase =
    | Scheduled
    | Started
    | Running(action: Action, seen: S)
    | Failing(error: Exn)
    | Handling

  /** How an action left the queue. */
  datatype Fate = Began | Unscheduled | Unstarted | Cleared

  datatype Gone = Gone(action: Action, fate: Fate)

  /** What decides the state: a finished action, or a restart. */
  datatype Deed = Did(action: Action) | Reset(state: S)

  /** `halted`: a failure was left standing and nothing has been scheduled since. */
  datatype Sys = Sys(
    core: Core,
    threads: map<nat, Phase>,
    next: nat,
    submitted: seq<Action>,
    gone: seq<Gone>,
    deeds: seq<Deed>,
    halted: bool)

  function Start(state: S, mode: Mode): Sys { Sys(Core(state, [], false, None, mode), map[], 0, [], [], [], false) }

  datatype Event =
    | Submitting(a: Action, refuse: Option<Exn>)
    | Starting(t: nat)
    | Taking(t: nat)
    | Finishing(t: nat, refuse: Option<Exn>)
    | Dropping(t: nat, e: Exn)
    | FailureBegins(t: nat)
    | FailureEnds(t: nat, raised: bool, refuse: Option<Exn>)
    | Restarting(state: Option<S>, valid: bool, clear: bool, refuse: Option<Exn>)
    | ClearingError
    | SettingMode(mode: Mode)

  function Ends(threads: map<nat, Phase>, t: nat): map<nat, Phase> {
    map u | u in threads && u != t :: threads[u]
  }

  /** The thread that called the executor goes on: an accepted task will run in a new thread. */
  function AfterSchedule(sys: Sys, sched: Sched, head: seq<Action>): Sys {
    match sched
    case Nothing => sys
    case Accepted => sys.(threads := sys.threads[sys.next := Scheduled], next := sys.next + 1, halted := false)
    case Refused(e) =>
      sys.(threads := sys.threads[sys.next := Failing(e)], next := sys.next + 1, halted := false,
           gone := sys.gone + (if head == [] then [] else [Gone(head[0], Unscheduled)]))
  }

  function ClearedAll(queue: seq<Action>): (r: seq<Gone>)
    ensures |r| == |queue| && forall i :: 0 <= i < |queue| ==> r[i] == Gone(queue[i], Cleared)
  {
    seq(|queue|, i requires 0 <= i < |queue| => Gone(queue[i], Cleared))
  }

  /** One section of one thread; an event whose thread is elsewhere does nothing. */
  function Step(sys: Sys, ev: Event): Sys {
    match ev
    case Submitting(a, refuse) =>
      if Failed(sys.core) then sys
      else
        var (core, sched) := Submit(sys.core, a, refuse);
        AfterSchedule(sys.(core := core, submitted := sys.submitted + [a]), sched, sys.core.queue + [a])
    case Starting(t) =>
      if t in sys.threads && sys.threads[t].Scheduled? then sys.(threads := sys.threads[t := Started]) else sys
    case Taking(t) =>
      if t in sys.threads && sys.threads[t].Started? then
        var (core, a) := Take(sys.core);
        if a.None? then sys.(core := core, threads := Ends(sys.threads, t))
        else
          sys.(core := core, gone := sys.gone + [Gone(a.value, Began)],
               threads := sys.threads[t := Running(a.value, sys.core.state)])
      else sys
    case Finishing(t, refuse) =>
      if t in sys.threads && sys.threads[t].Running? then
        var Running(a, seen) := sys.threads[t];
        var done := sys.(deeds := sys.deeds + [Did(a)]);
        match a.run(seen)
        case Err(e) => done.(threads := sys.threads[t := Failing(e)])
        case Ok(s) =>
          var (core, sched) := Publish(sys.core, s, refuse);
          AfterSchedule(done.(core := core, threads := Ends(sys.threads, t)), sched, sys.core.queue)
      else sys
    case Dropping(t, e) =>
      if t in sys.threads && sys.threads[t].Scheduled? && (sys.core.active ==> sys.core.queue != []) then
        var (core, failed) := DropUnstarted(sys.core);
        if failed then
          sys.(core := core, gone := sys.gone + [Gone(sys.core.queue[0], Unstarted)],
               threads := sys.threads[t := Failing(e)])
        else sys.(threads := Ends(sys.threads, t))
      else sys
    case FailureBegins(t) =>
      if t in sys.threads && sys.threads[t].Failing? then
        sys.(core := BeginFailure(sys.core, sys.threads[t].error), threads := sys.threads[t := Handling])
      else sys
    case FailureEnds(t, raised, refuse) =>
      if t in sys.threads && sys.threads[t].Handling? then
        var (core, sched) := EndFailure(sys.core, raised, refuse);
        var sys1 := sys.(core := core, threads := Ends(sys.threads, t), halted := core.mode.Fail?);
        AfterSchedule(sys1, sched, sys.core.queue)
      else sys
    case Restarting(state, valid, clear, refuse) =>
      var (core, ok, sched) := Restart(sys.core, state, valid, clear, refuse);
      if !ok then sys
      else
        var kept := if clear then [] else sys.core.queue;
        AfterSchedule(
          sys.(core := core, halted := false,
               gone := sys.gone + (if clear then ClearedAll(sys.core.queue) else []),
               deeds := sys.deeds + (if state.Some? then [Reset(state.value)] else [])),
          sched, kept)
    case ClearingError => sys.(core := sys.core.(error := None))
    case SettingMode(mode) => sys.(core := sys.core.(mode := mode))
  }

  function Exec(sys: Sys, run: seq<Event>): Sys
    decreases |run|
  {
    if run == [] then sys else Step(Exec(sys, run[..|run| - 1]), run[|run| - 1])
  }

  // ------------------------------------------------------------------
  // What every run keeps

  function Apply(s: S, d: Deed): S {
    match d
    case Reset(state) => state
    case Did(a) => (match a.run(s) case Ok(s1) => s1 case Err(_) => s)
  }

  /** The state that running the deeds one after another gives. */
  function Replay(init: S, deeds: seq<Deed>): S
    decreases |deeds|
  {
    if deeds == [] then init
    else Apply(Replay(init, deeds[..|deeds| - 1]), deeds[|deeds| - 1])
  }

  function Actions(gone: seq<Gone>): (r: seq<Action>)
    ensures |r| == |gone| && forall i :: 0 <= i < |gone| ==> r[i] == gone[i].action
  {
    seq(|gone|, i requires 0 <= i < |gone| => gone[i].action)
  }

  /** The actions that began, in the order they left the queue. */
  function Begun(gone: seq<Gone>): seq<Action>
    decreases |gone|
  {
    if gone == [] then []
    else
      var g := gone[|gone| - 1];
      Begun(gone[..|gone| - 1]) + (if g.fate.Began? then [g.action] else [])
  }

  function Finished(deeds: seq<Deed>): seq<Action>
    decreases |deeds|
  {
    if deeds == [] then []
    else
      var d := deeds[|deeds| - 1];
      Finished(deeds[..|deeds| - 1]) + (if d.Did? then [d.action] else [])
  }

  /** Actions leave the queue in submission order; those that begin do so one after another. */
  ghost predicate Ledger(sys: Sys, init: S) {
    && Actions(sys.gone) + sys.core.queue == sys.submitted
    && Replay(init, sys.deeds) == sys.core.state
  }

  ghost predicate NoneRunning(sys: Sys) {
    forall t :: t in sys.threads ==> !sys.threads[t].Running?
  }

  ghost predicate ThreadOk(sys: Sys, p: Phase) {
    match p
    case Scheduled => sys.core.queue != []
    case Started => sys.core.queue != []
    case Running(a, seen) => seen == sys.core.state && Begun(sys.gone) == Finished(sys.deeds) + [a]
    case _ => true
  }

  ghost predicate Inv(sys: Sys, init: S) {
    && Ledger(sys, init)
    && (forall t :: t in sys.threads ==> t < sys.next && ThreadOk(sys, sys.threads[t]))
    && (forall t, u :: t in sys.threads && u in sys.threads ==> t == u)
    && (sys.core.active <==> exists t :: t in sys.threads)
    && (NoneRunning(sys) ==> Begun(sys.gone) == Finished(sys.deeds))
    && (!sys.core.active && sys.core.queue != [] ==> sys.halted)
    && (sys.halted ==> !sys.core.active)
  }

  /** No thread works for the agent, whatever its flag says. */
  ghost predicate Quiet(sys: Sys, init: S) {
    Ledger(sys, init) && sys.threads == map[] && Begun(sys.gone) == Finished(sys.deeds)
  }

  lemma DeedAdd(init: S, deeds: seq<Deed>, d: Deed)
    ensures Finished(deeds + [d]) == Finished(deeds) + (if d.Did? then [d.action] else [])
    ensures Replay(init, deeds + [d]) == Apply(Replay(init, deeds), d)
  {
    assert (deeds + [d])[..|deeds|] == deeds;
  }

  lemma QueueMoves(sys: Sys, init: S, fate: Fate)
    requires Ledger(sys, init) && sys.core.queue != []
    ensures Ledger(sys.(core := sys.core.(queue := sys.core.queue[1..]),
                        gone := sys.gone + [Gone(sys.core.queue[0], fate)]), init)
  {
    assert sys.core.queue == [sys.core.queue[0]] + sys.core.queue[1..];
  }

  /** Calling the executor, or finding nothing to schedule, with no thread left. */
  lemma ScheduleOk(sys: Sys, init: S, refuse: Option<Exn>)
    requires Quiet(sys, init) && (sys.halted ==> sys.core.queue == [])
    ensures var (core, sched) := ScheduleNext(sys.core, refuse);
      Inv(AfterSchedule(sys.(core := core), sched, sys.core.queue), init)
  {
    var t := ScheduleNext(sys.core, refuse);
    var sys1 := AfterSchedule(sys.(core := t.0), t.1, sys.core.queue);
    if sys.core.queue != [] {
      assert sys.next in sys1.threads;
      if refuse.Some? {
        QueueMoves(sys, init, Unscheduled);
      }
    }
  }

  lemma EndsEmpties(sys: Sys, t: nat)
    requires t in sys.threads && forall u, v :: u in sys.threads && v in sys.threads ==> u == v
    ensures Ends(sys.threads, t) == map[]
  {
  }

  lemma SubmittingOk(sys: Sys, init: S, a: Action, refuse: Option<Exn>)
    requires Inv(sys, init)
    ensures Inv(Step(sys, Submitting(a, refuse)), init)
  {
    var sys1 := sys.(core := sys.core.(queue := sys.core.queue + [a]), submitted := sys.submitted + [a]);
    assert Ledger(sys1, init);
    if !Failed(sys.core) {
      if sys.core.active {
        assert NoneRunning(sys1) == NoneRunning(sys);
      } else {
        assert sys.threads == map[];
        Unhalt(sys1, init, refuse);
      }
    }
  }

  /** `halted` does not survive a call to the executor. */
  lemma Unhalt(sys: Sys, init: S, refuse: Option<Exn>)
    requires Quiet(sys, init) && sys.core.queue != []
    ensures var (core, sched) := ScheduleNext(sys.core, refuse);
      Inv(AfterSchedule(sys.(core := core), sched, sys.core.queue), init)
  {
    ScheduleOk(sys.(halted := false), init, refuse);
    var t := ScheduleNext(sys.core, refuse);
    assert AfterSchedule(sys.(core := t.0), t.1, sys.core.queue)
        == AfterSchedule(sys.(halted := false).(core := t.0), t.1, sys.core.queue);
  }

  lemma TakingOk(sys: Sys, init: S, t: nat)
    requires Inv(sys, init)
    ensures Inv(Step(sys, Taking(t)), init)
  {
    if t in sys.threads && sys.threads[t].Started? {
      var a := sys.core.queue[0];
      QueueMoves(sys, init, Began);
      assert NoneRunning(sys);
      var sys1 := Step(sys, Taking(t));
      assert t in sys1.threads && sys1.threads[t].Running?;
    }
  }

  /** An action that raises leaves its thread to handle the failure. */
  lemma RaisedOk(sys: Sys, init: S, t: nat, e: Exn, refuse: Option<Exn>)
    requires Inv(sys, init) && t in sys.threads && sys.threads[t].Running?
    requires sys.threads[t].action.run(sys.threads[t].seen) == Err(e)
    ensures Inv(Step(sys, Finishing(t, refuse)), init)
  {
    hide Begun, Actions, Finished, Replay;
    DeedAdd(init, sys.deeds, Did(sys.threads[t].action));
    assert t in sys.threads[t := Failing(e)];
  }

  /** An action that returns publishes its state and schedules the next. */
  lemma PublishedOk(sys: Sys, init: S, t: nat, s: S, refuse: Option<Exn>)
    requires Inv(sys, init) && t in sys.threads && sys.threads[t].Running?
    requires sys.threads[t].action.run(sys.threads[t].seen) == Ok(s)
    ensures Inv(Step(sys, Finishing(t, refuse)), init)
  {
    hide Begun, Actions, Finished, Replay;
    var done := sys.(deeds := sys.deeds + [Did(sys.threads[t].action)]);
    DeedAdd(init, sys.deeds, Did(sys.threads[t].action));
    EndsEmpties(sys, t);
    ScheduleOk(done.(core := sys.core.(state := s, active := false), threads := map[]), init, refuse);
  }

  lemma DroppingOk(sys: Sys, init: S, t: nat, e: Exn)
    requires Inv(sys, init)
    ensures Inv(Step(sys, Dropping(t, e)), init)
  {
    if t in sys.threads && sys.threads[t].Scheduled? {
      assert sys.core.active;
      QueueMoves(sys, init, Unstarted);
      assert NoneRunning(sys);
      assert t in sys.threads[t := Failing(e)];
    }
  }

  lemma FailureEndsOk(sys: Sys, init: S, t: nat, raised: bool, refuse: Option<Exn>)
    requires Inv(sys, init)
    ensures Inv(Step(sys, FailureEnds(t, raised, refuse)), init)
  {
    if t in sys.threads && sys.threads[t].Handling? {
      EndsEmpties(sys, t);
      assert NoneRunning(sys);
      if sys.core.mode.Continue? {
        var core1 := sys.core.(active := false, error := if raised then sys.core.error else None);
        ScheduleOk(sys.(core := core1, threads := map[], halted := false), init, refuse);
      }
    }
  }

  lemma Regroup<T>(a: seq<T>, b: seq<T>, c: seq<T>)
    ensures a + (b + c) == a + b + c
  {
  }

  lemma ClearedOne(gone: seq<Gone>, a: Action)
    ensures Begun(gone + [Gone(a, Cleared)]) == Begun(gone)
    ensures Actions(gone + [Gone(a, Cleared)]) == Actions(gone) + [a]
  {
    assert (gone + [Gone(a, Cleared)])[..|gone|] == gone;
  }

  lemma {:induction false} ClearedGone(gone: seq<Gone>, queue: seq<Action>)
    ensures Begun(gone + ClearedAll(queue)) == Begun(gone)
    ensures Actions(gone + ClearedAll(queue)) == Actions(gone) + queue
    decreases |queue|
  {
    if queue == [] {
      assert gone + ClearedAll(queue) == gone;
    } else {
      var (init, last) := (queue[..|queue| - 1], queue[|queue| - 1]);
      ClearedGone(gone, init);
      ClearedOne(gone + ClearedAll(init), last);
      assert ClearedAll(queue) == ClearedAll(init) + [Gone(last, Cleared)];
      hide Begun, Actions, ClearedAll;
      Regroup(gone, ClearedAll(init), [Gone(last, Cleared)]);
      Regroup(Actions(gone), init, [last]);
      assert queue == init + [last];
    }
  }

  /** What a restart leaves before it schedules. */
  lemma RestartQuiet(sys: Sys, init: S, state: Option<S>, clear: bool, core: Core)
    requires Inv(sys, init) && !sys.core.active
    requires core.state == if state.Some? then state.value else sys.core.state
    requires core.queue == if clear then [] else sys.core.queue
    ensures Quiet(sys.(core := core, halted := false,
      gone := sys.gone + (if clear then ClearedAll(sys.core.queue) else []),
      deeds := sys.deeds + (if state.Some? then [Reset(state.value)] else [])), init)
  {
    assert sys.threads == map[];
    assert Quiet(sys, init) && sys.gone + [] == sys.gone && sys.deeds + [] == sys.deeds;
    hide Inv, Begun, Actions, Finished;
    if clear {
      ClearedGone(sys.gone, sys.core.queue);
    }
    if state.Some? {
      DeedAdd(init, sys.deeds, Reset(state.value));
    }
  }

  lemma RestartingOk(sys: Sys, init: S, state: Option<S>, valid: bool, clear: bool, refuse: Option<Exn>)
    requires Inv(sys, init)
    ensures Inv(Step(sys, Restarting(state, valid, clear, refuse)), init)
  {
    if !(sys.core.active || (state.Some? && !valid)) {
      var kept := if clear then [] else sys.core.queue;
      var value := if state.Some? then state.value else sys.core.state;
      var core1 := sys.core.(state := value, error := None, queue := kept);
      var gone1 := sys.gone + (if clear then ClearedAll(sys.core.queue) else []);
      var deeds1 := sys.deeds + (if state.Some? then [Reset(state.value)] else []);
      var sys1 := sys.(core := core1, halted := false, gone := gone1, deeds := deeds1);
      RestartQuiet(sys, init, state, clear, core1);
      if kept != [] {
        ScheduleOk(sys1, init, refuse);
      }
    }
  }

  lemma StepOk(sys: Sys, init: S, ev: Event)
    requires Inv(sys, init)
    ensures Inv(Step(sys, ev), init)
  {
    match ev
    case Submitting(a, refuse) => SubmittingOk(sys, init, a, refuse);
    case Starting(t) =>
      if t in sys.threads && sys.threads[t].Scheduled? {
        assert NoneRunning(sys);
        assert t in sys.threads[t := Started];
      }
    case Taking(t) => TakingOk(sys, init, t);
    case Finishing(t, refuse) =>
      if t in sys.threads && sys.threads[t].Running? {
        match sys.threads[t].action.run(sys.threads[t].seen)
        case Err(e) => RaisedOk(sys, init, t, e, refuse);
        case Ok(s) => PublishedOk(sys, init, t, s, refuse);
      }
    case Dropping(t, e) => DroppingOk(sys, init, t, e);
    case FailureBegins(t) =>
      if t in sys.threads && sys.threads[t].Failing? {
        assert NoneRunning(sys);
        assert t in sys.threads[t := Handling];
      }
    case FailureEnds(t, raised, refuse) => FailureEndsOk(sys, init, t, raised, refuse);
    case Restarting(state, valid, clear, refuse) => RestartingOk(sys, init, state, valid, clear, refuse);
    case ClearingError => assert NoneRunning(sys) == NoneRunning(Step(sys, ev));
    case SettingMode(mode) => assert NoneRunning(sys) == NoneRunning(Step(sys, ev));
  }

  lemma {:induction false} RunOk(state: S, mode: Mode, run: seq<Event>)
    ensures Inv(Exec(Start(state, mode), run), state)
    decreases |run|
  {
    if run == [] {
    } else {
      RunOk(state, mode, run[..|run| - 1]);
      StepOk(Exec(Start(state, mode), run[..|run| - 1]), state, run[|run| - 1]);
    }
  }

  // ------------------------------------------------------------------
  // The properties of every run

  /**
    The flag is set exactly while one thread works for the agent, and never two
    do. A scheduled or started thread always finds its action, so no thread
    takes from an empty queue.
  */
  lemma OneAtATime(state: S, mode: Mode, run: seq<Event>)
    ensures var sys := Exec(Start(state, mode), run);
      && (sys.core.active <==> |sys.threads| == 1) && (!sys.core.active <==> sys.threads == map[])
      && forall t :: t in sys.threads && (sys.threads[t].Scheduled? || sys.threads[t].Started?) ==> sys.core.queue != []
  {
    var sys := Exec(Start(state, mode), run);
    RunOk(state, mode, run);
    if t :| t in sys.threads {
      assert sys.threads.Keys == {t};
      assert |sys.threads| == |sys.threads.Keys|;
    }
  }

  /** What left the queue, then what is queued, are the submitted actions in order, each once. */
  ghost predicate InSubmissionOrder(gone: seq<Gone>, queue: seq<Action>, submitted: seq<Action>) {
    && |submitted| == |gone| + |queue|
    && (forall i :: 0 <= i < |gone| ==> gone[i].action == submitted[i])
    && (forall i :: 0 <= i < |queue| ==> queue[i] == submitted[|gone| + i])
  }

  lemma OrderOf(gone: seq<Gone>, queue: seq<Action>, submitted: seq<Action>)
    requires Actions(gone) + queue == submitted
    ensures InSubmissionOrder(gone, queue, submitted)
  {
    forall i | 0 <= i < |gone| ensures gone[i].action == submitted[i] {
      assert Actions(gone)[i] == submitted[i];
    }
  }

  lemma SubmissionOrder(state: S, mode: Mode, run: seq<Event>)
    ensures var sys := Exec(Start(state, mode), run); InSubmissionOrder(sys.gone, sys.core.queue, sys.submitted)
  {
    var sys := Exec(Start(state, mode), run);
    RunOk(state, mode, run);
    OrderOf(sys.gone, sys.core.queue, sys.submitted);
  }

  /**
    The state is the result of running, one after another and without any
    failure handling, the actions that began, each from the state the one before
    it left; a restart sets it afresh. Only the action running now is missing.
  */
  lemma SerialState(state: S, mode: Mode, run: seq<Event>)
    ensures var sys := Exec(Start(state, mode), run);
      && sys.core.state == Replay(state, sys.deeds)
      && (NoneRunning(sys) ==> Finished(sys.deeds) == Begun(sys.gone))
      && (forall t :: t in sys.threads && sys.threads[t].Running? ==>
        && sys.threads[t].seen == sys.core.state
        && Finished(sys.deeds) + [sys.threads[t].action] == Begun(sys.gone))
  {
    RunOk(state, mode, run);
    var sys := Exec(Start(state, mode), run);
    assert forall t :: t in sys.threads ==> ThreadOk(sys, sys.threads[t]);
  }

  /** Queued work waits without a thread only after a failure was left standing in fail mode. */
  lemma NoForgottenWork(state: S, mode: Mode, run: seq<Event>)
    ensures var sys := Exec(Start(state, mode), run);
      sys.core.queue != [] && !sys.halted ==> exists t :: t in sys.threads
  {
    RunOk(state, mode, run);
  }

  // ------------------------------------------------------------------
  // The agent as the program keeps it

  /** One method for each section that holds the agent's lock; `refuse` is the executor's answer. */
  class AgentObject {
    var state: S
    var queue: seq<Action>
    var active: bool
    var error: Option<Exn>
    var mode: Mode

    ghost function Model(): Core
      reads this
    {
      Core(state, queue, active, error, mode)
    }

    constructor (state: S, mode: Mode)
      ensures Model() == Start(state, mode).core
    {
      this.state, this.mode := state, mode;
      queue, active, error := [], false, None;
    }

    method ScheduleNextTask(refuse: Option<Exn>) returns (sched: Sched)
      modifies this
      ensures (Model(), sched) == old(ScheduleNext(Model(), refuse))
    {
      if queue == [] {
        active := false;
        return Nothing;
      }
      active := true;
      if refuse.Some? {
        queue := queue[1..];
        return Refused(refuse.value);
      }
      sched := Accepted;
    }

    method SubmitAction(a: Action, refuse: Option<Exn>) returns (accepted: bool, sched: Sched)
      modifies this
      ensures (Model(), sched) == old(Submit(Model(), a, refuse)) && accepted == !old(Failed(Model()))
    {
      if error.Some? && mode.Fail? {
        return false, Nothing;
      }
      queue := queue + [a];
      accepted, sched := true, Nothing;
      if !active {
        sched := ScheduleNextTask(refuse);
      }
    }

    method TakeAction() returns (next: Option<(Action, S)>)
      modifies this
      ensures Model() == old(Take(Model())).0
      ensures next == match old(Take(Model())).1 { case None => None case Some(a) => Some((a, old(state))) }
    {
      if queue == [] {
        active := false;
        return None;
      }
      next := Some((queue[0], state));
      queue := queue[1..];
    }

    method PublishState(s: S, refuse: Option<Exn>) returns (sched: Sched)
      modifies this
      ensures (Model(), sched) == old(Publish(Model(), s, refuse))
    {
      state := s;
      active := false;
      sched := ScheduleNextTask(refuse);
    }

    method RecordFailure(e: Exn)
      modifies this
      ensures Model() == old(BeginFailure(Model(), e))
    {
      error := Some(e);
    }

    method FinishFailure(handlerRaised: bool, refuse: Option<Exn>) returns (sched: Sched)
      modifies this
      ensures (Model(), sched) == old(EndFailure(Model(), handlerRaised, refuse))
    {
      active := false;
      sched := Nothing;
      if mode.Continue? {
        if !handlerRaised {
          error := None;
        }
        sched := ScheduleNextTask(refuse);
      }
    }

    method DropUnstartedAction() returns (failed: bool)
      requires active ==> queue != []
      modifies this
      ensures (Model(), failed) == old(DropUnstarted(Model()))
    {
      if !active {
        return false;
      }
      queue := queue[1..];
      failed := true;
    }

    method RestartAgent(s: Option<S>, valid: bool, clear: bool, refuse: Option<Exn>) returns (ok: bool, sched: Sched)
      modifies this
      ensures (Model(), ok, sched) == old(Restart(Model(), s, valid, clear, refuse))
    {
      if active || (s.Some? && !valid) {
        return false, Nothing;
      }
      if s.Some? {
        state := s.value;
      }
      error := None;
      if clear {
        queue := [];
      }
      ok, sched := true, Nothing;
      if !active && queue != [] {
        sched := ScheduleNextTask(refuse);
      }
    }

    method ClearError()
      modifies this
      ensures Model() == old(Model()).(error := None)
    {
      error := None;
    }

    method SetErrorMode(m: Mode)
      modifies this
      ensures Model() == old(Model()).(mode := m)
    {
      mode := m;
    }
  }
}
