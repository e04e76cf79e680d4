/**
  Which failure an agent stands on, and what it does meanwhile
  (src/basilisp/lang/agent.py:109-315).
*/
module AgentFailures {
  import opened Prelude
  import opened Agent

  // ------------------------------------------------------------------
  // The failure that stands

  datatype Notice = Failure(error: Exn) | Forgotten

  /** The agent accepts to be restarted: nothing runs, and the new state, if any, is valid. */
  predicate RestartAccepted(core: Core, state: Option<S>, valid: bool) { !core.active && (state.Some? ==> valid) }

  /** What an event has to do with failures, given the state it meets. */
  function NoticeOf(sys: Sys, ev: Event): seq<Notice> {
    match ev
    case FailureBegins(t) =>
      if t in sys.threads && sys.threads[t].Failing? then [Failure(sys.threads[t].error)] else []
    case FailureEnds(t, raised, _) =>
      if t in sys.threads && sys.threads[t].Handling? && !raised && sys.core.mode.Continue? then [Forgotten] else []
    case ClearingError => [Forgotten]
    case Restarting(state, valid, _, _) => if RestartAccepted(sys.core, state, valid) then [Forgotten] else []
    case _ => []
  }

  /** The failures that began to be handled and the moments they were forgotten, in order. */
  function Notices(sys: Sys, run: seq<Event>): seq<Notice>
    decreases |run|
  {
    if run == [] then []
    else Notices(sys, run[..|run| - 1]) + NoticeOf(Exec(sys, run[..|run| - 1]), run[|run| - 1])
  }

  lemma StepNotice(sys: Sys, ev: Event)
    ensures var n := NoticeOf(sys, ev);
      Step(sys, ev).core.error == if n == [] then sys.core.error
                                  else match n[0] { case Failure(e) => Some(e) case Forgotten => None }
  {
  }

  /**
    In every run the agent's error is that of the last failure that began to be
    handled, unless it was cleared, the agent restarted, or its handler returned
    in continue mode, since then.
  */
  lemma {:induction false} ErrorIsLastFailure(state: S, mode: Mode, run: seq<Event>)
    ensures var (error, notices) := (Exec(Start(state, mode), run).core.error, Notices(Start(state, mode), run));
      && (error == None <==> notices == [] || notices[|notices| - 1] == Forgotten)
      && forall e :: error == Some(e) <==> notices != [] && notices[|notices| - 1] == Failure(e)
    decreases |run|
  {
    hide Step;
    if run != [] {
      ErrorIsLastFailure(state, mode, run[..|run| - 1]);
      StepNotice(Exec(Start(state, mode), run[..|run| - 1]), run[|run| - 1]);
    }
  }

  /** The mode last asked for. */
  function ModeAsked(mode: Mode, run: seq<Event>): Mode
    decreases |run|
  {
    if run == [] then mode
    else
      match run[|run| - 1]
      case SettingMode(m) => m
      case _ => ModeAsked(mode, run[..|run| - 1])
  }

  lemma StepMode(sys: Sys, ev: Event)
    ensures Step(sys, ev).core.mode == match ev case SettingMode(m) => m case _ => sys.core.mode
  {
  }

  lemma {:induction false} ModeIsAsked(state: S, mode: Mode, run: seq<Event>)
    ensures Exec(Start(state, mode), run).core.mode == ModeAsked(mode, run)
    decreases |run|
  {
    hide Step;
    if run != [] {
      ModeIsAsked(state, mode, run[..|run| - 1]);
      StepMode(Exec(Start(state, mode), run[..|run| - 1]), run[|run| - 1]);
    }
  }

  // ------------------------------------------------------------------
  // A failed agent

  ghost predicate Stopped(sys: Sys) { sys.core.error.Some? && sys.core.mode.Fail? }

  /** An action is taken exactly when the agent has not failed; a refused one changes nothing. */
  lemma SubmissionAccepted(sys: Sys, a: Action, refuse: Option<Exn>)
    ensures var sys1 := Step(sys, Submitting(a, refuse));
      && (sys.core.error.Some? && sys.core.mode.Fail? ==> sys1 == sys)
      && (sys.core.error.None? || sys.core.mode.Continue? ==> sys1.submitted == sys.submitted + [a])
  {
  }

  /** Nothing forgets the failure, and the mode stays. */
  ghost predicate Unforgiven(sys: Sys, more: seq<Event>) {
    forall k :: 0 <= k < |more| ==>
      more[k] != SettingMode(Continue) && Forgotten !in NoticeOf(Exec(sys, more[..k]), more[k])
  }

  lemma UnforgivenInit(sys: Sys, more: seq<Event>)
    requires Unforgiven(sys, more) && more != []
    ensures Unforgiven(sys, more[..|more| - 1])
    ensures var last := |more| - 1;
      more[last] != SettingMode(Continue) && Forgotten !in NoticeOf(Exec(sys, more[..last]), more[last])
  {
    var init := more[..|more| - 1];
    forall k | 0 <= k < |init|
      ensures init[k] != SettingMode(Continue) && Forgotten !in NoticeOf(Exec(sys, init[..k]), init[k])
    {
      assert init[..k] == more[..k];
    }
  }

  /**
    From a failure in fail mode until it is cleared, the agent is restarted or
    its mode is changed, no submission is accepted.
  */
  lemma {:induction false} FailedAgentRefuses(sys: Sys, more: seq<Event>)
    requires Stopped(sys) && Unforgiven(sys, more)
    ensures Stopped(Exec(sys, more)) && Exec(sys, more).submitted == sys.submitted
    ensures forall k, a, refuse :: 0 <= k < |more| && more[k] == Submitting(a, refuse) ==>
      Exec(sys, more[..k + 1]) == Exec(sys, more[..k])
    decreases |more|
  {
    hide Step, Stopped, Unforgiven, NoticeOf;
    if more != [] {
      var init := more[..|more| - 1];
      UnforgivenInit(sys, more);
      FailedAgentRefuses(sys, init);
      StepStopped(Exec(sys, init), more[|more| - 1]);
      forall k, a, refuse | 0 <= k < |more| && more[k] == Submitting(a, refuse)
        ensures Exec(sys, more[..k + 1]) == Exec(sys, more[..k])
      {
        if k < |init| {
          assert init[k] == more[k] && init[..k + 1] == more[..k + 1] && init[..k] == more[..k];
        } else {
          assert more[..k + 1] == more && more[..k] == init;
        }
      }
    }
  }

  lemma StepStopped(sys: Sys, ev: Event)
    requires Stopped(sys) && ev != SettingMode(Continue) && Forgotten !in NoticeOf(sys, ev)
    ensures Stopped(Step(sys, ev)) && Step(sys, ev).submitted == sys.submitted
    ensures ev.Submitting? ==> Step(sys, ev) == sys
  {
    StepNotice(sys, ev);
  }

  /**
    Once the handling of a failure is over, an agent in fail mode does nothing
    at all until it is forgiven: state, queue and threads stay as they are.
  */
  lemma {:induction false} FailedAgentRests(state: S, mode: Mode, run: seq<Event>, more: seq<Event>)
    requires var sys := Exec(Start(state, mode), run); Stopped(sys) && !sys.core.active && Unforgiven(sys, more)
    ensures Exec(Exec(Start(state, mode), run), more) == Exec(Start(state, mode), run)
    decreases |more|
  {
    if more != [] {
      var sys := Exec(Start(state, mode), run);
      UnforgivenInit(sys, more);
      FailedAgentRests(state, mode, run, more[..|more| - 1]);
      OneAtATime(state, mode, run);
      StepRests(sys, more[|more| - 1]);
    }
  }

  lemma StepRests(sys: Sys, ev: Event)
    requires Stopped(sys) && sys.threads == map[]
    requires ev != SettingMode(Continue) && Forgotten !in NoticeOf(sys, ev)
    ensures Step(sys, ev) == sys
  {
  }

  // ------------------------------------------------------------------
  // How work goes on

  /** Thread `t` follows, and will run the head of the queue or handle its refusal; without work nothing follows. */
  ghost predicate GoesOn(sys: Sys, t: nat, others: map<nat, Phase>, queue: seq<Action>, refuse: Option<Exn>) {
    if queue == [] then !sys.core.active && sys.core.queue == [] && sys.threads == others
    else
      sys.core.active &&
      match refuse
      case None => sys.core.queue == queue && sys.threads == others[t := Scheduled]
      case Some(e) => sys.core.queue == queue[1..] && sys.threads == others[t := Failing(e)]
  }

  /** An action that returns sets the state and lets the next begin; one that raises changes nothing and fails. */
  lemma ActionEnds(sys: Sys, t: nat, refuse: Option<Exn>)
    requires t in sys.threads && sys.threads[t].Running?
    ensures var sys1 := Step(sys, Finishing(t, refuse));
      match sys.threads[t].action.run(sys.threads[t].seen)
      case Err(e) => sys1.core == sys.core && sys1.threads == sys.threads[t := Failing(e)]
      case Ok(s) =>
        && sys1.core.state == s && sys1.core.error == sys.core.error
        && GoesOn(sys1, sys.next, sys.threads - {t}, sys.core.queue, refuse)
  {
    EndsRemoves(sys.threads, t);
  }

  lemma EndsRemoves(threads: map<nat, Phase>, t: nat)
    ensures Ends(threads, t) == threads - {t}
  {
  }

  /**
    In continue mode a handler that returns leaves no error, one that raises
    leaves it standing, and the next action begins; in fail mode the error
    stands and nothing begins.
  */
  lemma HandlerEnds(sys: Sys, t: nat, raised: bool, refuse: Option<Exn>)
    requires t in sys.threads && sys.threads[t].Handling?
    ensures var sys1 := Step(sys, FailureEnds(t, raised, refuse));
      && sys1.core.state == sys.core.state
      && sys1.core.error == (if sys.core.mode.Continue? && !raised then None else sys.core.error)
      && (sys.core.mode.Continue? ==> GoesOn(sys1, sys.next, sys.threads - {t}, sys.core.queue, refuse))
      && (sys.core.mode.Fail? ==>
        !sys1.core.active && sys1.core.queue == sys.core.queue && sys1.threads == sys.threads - {t})
  {
    EndsRemoves(sys.threads, t);
  }

  /** A restart is accepted exactly while nothing runs and the new state is valid; otherwise it changes nothing. */
  lemma RestartDoes(sys: Sys, state: Option<S>, valid: bool, clear: bool, refuse: Option<Exn>)
    ensures var sys1 := Step(sys, Restarting(state, valid, clear, refuse));
      && (!RestartAccepted(sys.core, state, valid) ==> sys1 == sys)
      && (RestartAccepted(sys.core, state, valid) ==>
        && sys1.core.state == (if state.Some? then state.value else sys.core.state)
        && sys1.core.error == None && sys1.submitted == sys.submitted
        && GoesOn(sys1, sys.next, sys.threads, if clear then [] else sys.core.queue, refuse))
  {
  }

  /** A submission to an idle agent begins at once, one to a busy agent waits behind the others. */
  lemma SubmissionGoesOn(sys: Sys, a: Action, refuse: Option<Exn>)
    requires !Stopped(sys)
    ensures var sys1 := Step(sys, Submitting(a, refuse));
      && sys1.core.state == sys.core.state && sys1.core.error == sys.core.error
      && (!sys.core.active ==> GoesOn(sys1, sys.next, sys.threads, sys.core.queue + [a], refuse))
      && (sys.core.active ==> sys1.core.queue == sys.core.queue + [a] && sys1.threads == sys.threads)
  {
  }
}
