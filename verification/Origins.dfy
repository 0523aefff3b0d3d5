/** Where what a run shows comes from: the cause of its end, its times, its timeouts, its reports. */
module Origins {
  import opened Wrappers
  import Metrics
  import opened Ofrep
  import opened Request
  import opened Bridge
  import opened Evaluation
  import opened Lifecycle
  import opened Invariants
  import opened Guarantees

  // ----- the cause

  /** What an action gives as a cause: a signal, a listener that fails, a start that is blamed. */
  function CauseOf(a: Action): Option<Cause> {
    match a
    case Signal => Some(Signalled)
    case OfListener(_, Bind(ok)) => if ok then None else Some(ListenerFailed)
    case OfListener(_, Stop(failed)) => if failed then Some(ListenerFailed) else None
    case OfStarter(Blame) => Some(StartFailed)
    case _ => None
  }

  function FirstCause(run: seq<Action>): Option<Cause> {
    if run == [] then None
    else
      var before := FirstCause(run[..|run| - 1]);
      if before.Some? then before else CauseOf(run[|run| - 1])
  }

  lemma CauseNext(c: Env, s: Sys, a: Action, t: Sys)
    requires Next(c, s, a, t)
    ensures t.cause == if s.cause.Some? then s.cause else CauseOf(a)
  {
    match a
    case OfRequest(k, step) => RequestFrame(c, s, k, step);
    case OfTerm(step) => TermFrame(c, s, step);
    case OfListener(isEval, l) => CauseListener(s, isEval, l);
    case _ =>
  }

  lemma CauseListener(s: Sys, isEval: bool, l: ListenStep)
    requires ListenEnabled(ServerOf(s, isEval), l)
    ensures StepServer(s, isEval, l).cause == if s.cause.Some? then s.cause else CauseOf(OfListener(isEval, l))
  {}

  /** The context has ended exactly when a signal arrived, a listener failed or Start was blamed, and its
      cause is the first of these. */
  lemma {:induction false} CauseIsFirst(c: Env, run: seq<Action>)
    requires Exec(c, run).Some?
    ensures Exec(c, run).value.cause == FirstCause(run)
  {
    if run != [] {
      LastStep(c, run);
      CauseIsFirst(c, run[..|run| - 1]);
      CauseNext(c, Exec(c, run[..|run| - 1]).value, run[|run| - 1], Exec(c, run).value);
    }
  }

  // ----- the time of readiness

  /** The provider's initialization returned at position `i` of the run, at time `at`. */
  ghost predicate InitializedAt(c: Env, run: seq<Action>, i: nat, at: int) {
    i < |run| && run[i] == OfStarter(InitOk) && Exec(c, run[..i]).Some? && Exec(c, run[..i]).value.clock == at
  }

  ghost predicate SomeInitialized(c: Env, run: seq<Action>, at: int) { exists i :: InitializedAt(c, run, i, at) }

  lemma {:induction false} InitializedStays(c: Env, run: seq<Action>, at: int)
    requires run != [] && SomeInitialized(c, run[..|run| - 1], at)
    ensures SomeInitialized(c, run, at)
  {
    var front := run[..|run| - 1];
    var i: nat :| InitializedAt(c, front, i, at);
    assert run[..i] == front[..i];
    assert InitializedAt(c, run, i, at);
  }

  /** The time a starter carries. */
  function CarriedTime(s: Sys): Option<int> {
    match s.starter
    case Initialized(at) => Some(at)
    case Announcing(at) => Some(at)
    case _ => s.life.readyAt
  }

  lemma CarriedNext(c: Env, s: Sys, a: Action, t: Sys)
    requires LifeOK(s) && StarterOK(s) && Next(c, s, a, t)
    ensures CarriedTime(t) == CarriedTime(s) || CarriedTime(t) == None
            || (a == OfStarter(InitOk) && CarriedTime(t) == Some(s.clock))
  {
    match a
    case OfRequest(k, step) => RequestFrame(c, s, k, step);
    case OfTerm(step) => TermFrame(c, s, step);
    case OfListener(isEval, l) => ListenerFrame(s, isEval, l);
    case _ =>
  }

  /** The time of readiness is the time at which the provider's initialization returned. */
  lemma {:induction false} ReadySinceInitialized(c: Env, run: seq<Action>)
    requires Exec(c, run).Some?
    ensures var at := CarriedTime(Exec(c, run).value);
            at.Some? ==> SomeInitialized(c, run, at.value)
    ensures Exec(c, run).value.life.readyAt.Some? ==> CarriedTime(Exec(c, run).value) == Exec(c, run).value.life.readyAt
  {
    Reachable(c, run);
    if run != [] {
      LastStep(c, run);
      var front, a := run[..|run| - 1], run[|run| - 1];
      ReadySinceInitialized(c, front);
      Reachable(c, front);
      var s, t := Exec(c, front).value, Exec(c, run).value;
      CarriedNext(c, s, a, t);
      if CarriedTime(t).Some? {
        if CarriedTime(t) == CarriedTime(s) {
          InitializedStays(c, run, CarriedTime(t).value);
        } else {
          assert InitializedAt(c, run, |front|, s.clock);
        }
      }
    }
  }

  // ----- durations and timeouts

  /** The state just before and just after the action at position `i`. */
  lemma {:induction false} AtPosition(c: Env, run: seq<Action>, i: nat) returns (s: Sys, t: Sys)
    requires Exec(c, run).Some? && i < |run|
    ensures Exec(c, run[..i]) == Some(s) && Exec(c, run[..i + 1]) == Some(t) && Next(c, s, run[i], t)
    ensures Grows(t, Exec(c, run).value)
  {
    var first := run[..i + 1];
    assert first + run[i + 1..] == run;
    RunGrows(c, first, run[i + 1..]);
    assert first[..|first| - 1] == run[..i];
    LastStep(c, first);
    s, t := Exec(c, run[..i]).value, Exec(c, first).value;
  }

  /** What is recorded of a request is its reply's outcome and the time since its handler was entered. */
  lemma {:induction false} DurationSinceEntered(c: Env, run: seq<Action>, k: nat, i: nat)
    requires Exec(c, run + [OfRequest(k, Observe)]).Some?
    requires i < |run| && run[i] == OfRequest(k, Enter)
    ensures Exec(c, run).Some? && Exec(c, run[..i]).Some?
    ensures var s, t := Exec(c, run).value, Exec(c, run + [OfRequest(k, Observe)]).value;
            && k < |s.reqs| && HasReply(s.reqs[k].phase) && |t.log| == |s.log| + 1 && s.log == t.log[..|s.log|]
            && var x := t.log[|s.log|];
               && x.outcome == s.reqs[k].phase.reply.outcome
               && x.seconds * 1_000_000_000.0 == (s.clock - Exec(c, run[..i]).value.clock) as real
  {
    var whole := run + [OfRequest(k, Observe)];
    assert whole[..|whole| - 1] == run;
    LastStep(c, whole);
    var before, after := AtPosition(c, run, i);
    EnteredNow(c, before, k, after);
    var s, t := Exec(c, run).value, Exec(c, whole).value;
    assert Follows(after.reqs[k], s.reqs[k]);
    ObservedFrame(c, s, k, t);
    ObservedTells(s, s.reqs[k]);
  }

  lemma EnteredNow(c: Env, s: Sys, k: nat, t: Sys)
    requires Next(c, s, OfRequest(k, Enter), t)
    ensures k < |t.reqs| && t.reqs[k].phase.Entered? && t.reqs[k].entered == s.clock
  {
    RequestFrame(c, s, k, Enter);
  }

  lemma ObservedTells(s: Sys, r: Req)
    requires HasReply(r.phase)
    ensures Observed(s, r).outcome == r.phase.reply.outcome
    ensures Observed(s, r).seconds * 1_000_000_000.0 == (s.clock - r.entered) as real
  {}

  /** No request times out early: when a select expires, its handler timeout has passed since the evaluation
      was started, unless the caller has hung up. */
  lemma {:induction false} TimeoutEarned(c: Env, run: seq<Action>, k: nat, i: nat)
    requires Exec(c, run + [OfRequest(k, Expire)]).Some?
    requires i < |run| && run[i] == OfRequest(k, Spawn)
    ensures Exec(c, run).Some? && Exec(c, run[..i]).Some? && k < |Exec(c, run).value.reqs|
    ensures var s := Exec(c, run).value;
            s.clock >= Exec(c, run[..i]).value.clock + c.settings.handlerTimeout || s.reqs[k].hungUp
    ensures Exec(c, run).value.reqs[k].hungUp ==> OfRequest(k, HangUp) in run
  {
    var whole := run + [OfRequest(k, Expire)];
    assert whole[..|whole| - 1] == run;
    LastStep(c, whole);
    var s := Exec(c, run).value;
    var before, after := AtPosition(c, run, i);
    SpawnedNow(c, before, k, after);
    Overdue(after.reqs[k], s, k);
    if s.reqs[k].hungUp { HungUpOnce(c, run, k); }
  }

  lemma SpawnedNow(c: Env, s: Sys, k: nat, t: Sys)
    requires Next(c, s, OfRequest(k, Spawn), t)
    ensures k < |t.reqs| && t.reqs[k].phase == Selecting(s.clock + c.settings.handlerTimeout)
  {
    RequestFrame(c, s, k, Spawn);
  }

  lemma Overdue(r: Req, s: Sys, k: nat)
    requires k < |s.reqs| && ReqEnabled(s, s.reqs[k], Expire) && Follows(r, s.reqs[k]) && r.phase.Selecting?
    ensures s.clock >= r.phase.deadline || s.reqs[k].hungUp
  {}

  lemma {:induction false} HungUpOnce(c: Env, run: seq<Action>, k: nat)
    requires Exec(c, run).Some? && k < |Exec(c, run).value.reqs| && Exec(c, run).value.reqs[k].hungUp
    ensures OfRequest(k, HangUp) in run
  {
    if run != [] {
      LastStep(c, run);
      var front, a := run[..|run| - 1], run[|run| - 1];
      HungUpNext(c, Exec(c, front).value, a, Exec(c, run).value, k);
      if a != OfRequest(k, HangUp) { HungUpOnce(c, front, k); }
    }
  }

  lemma HungUpNext(c: Env, s: Sys, a: Action, t: Sys, k: nat)
    requires Next(c, s, a, t) && k < |t.reqs| && t.reqs[k].hungUp
    ensures a == OfRequest(k, HangUp) || (k < |s.reqs| && s.reqs[k].hungUp)
  {
    if k >= |s.reqs| {
      NewRequest(c, s, a, t, k);
    } else if a.OfRequest? && a.k == k {
      RequestFrame(c, s, k, a.r);
    } else {
      SameRequest(c, s, a, t, k);
    }
  }

  /** A caller that hangs up frees its handler at once. */
  lemma {:induction false} HangUpFrees(c: Env, run: seq<Action>, k: nat)
    requires Exec(c, run + [OfRequest(k, HangUp)]).Some?
    ensures var t := Exec(c, run + [OfRequest(k, HangUp)]).value;
            k < |t.reqs| && (t.reqs[k].phase.Selecting? ==> ReqEnabled(t, t.reqs[k], Expire))
  {
    var whole := run + [OfRequest(k, HangUp)];
    assert whole[..|whole| - 1] == run;
    LastStep(c, whole);
    RequestFrame(c, Exec(c, run).value, k, HangUp);
  }

  /** Connections are accepted only by a listener that serves, and a listener that stops serving reports
      an error exactly when it was not told to. */
  lemma {:induction false} ListenerActs(c: Env, run: seq<Action>, a: Action)
    requires Exec(c, run + [a]).Some?
    ensures Exec(c, run).Some?
    ensures var s := Exec(c, run).value;
            && (a.Connect? ==> s.eval == Server(Serving, false))
            && (a.OfListener? && a.l.Stop? ==>
                  if a.isEval then a.l.failed == !s.eval.closing else a.l.failed == !s.admin.closing)
  {
    assert (run + [a])[..|run + [a]| - 1] == run;
    LastStep(c, run + [a]);
  }

  /** What the process does not decide may happen in every state: time passes, a signal comes, a caller
      connects to a serving listener, even after StopServing, or hangs up, a connection brings a request or
      goes away, a listener fails to bind or dies, the provider's initialization, its shutdown and that of
      the operational listener succeed or fail. */
  ghost predicate Uncontrolled(c: Env, s: Sys, a: Action) {
    match a
    case Tick => true
    case Signal => true
    case Connect(input, decoded) => s.eval == Server(Serving, false) && Decodes(input, c.limits, decoded)
    case OfRequest(k, HangUp) => k < |s.reqs|
    case OfRequest(k, Enter) => k < |s.reqs| && s.reqs[k].phase == Connected
    case OfRequest(k, Drop) => k < |s.reqs| && s.reqs[k].phase == Connected
    case OfListener(isEval, Bind(_)) => (if isEval then s.eval else s.admin).listen == Binding
    case OfListener(isEval, Stop(failed)) => (if isEval then s.eval else s.admin) == Server(Serving, !failed)
    case OfStarter(InitOk) => s.starter == Waiting
    case OfStarter(InitFail) => s.starter == Waiting
    case OfTerm(Flushed(_)) => s.term.pc == Flushing
    case OfTerm(TracerStopped) => s.term.pc == StoppingTracer
    case OfTerm(AdminClosed(_)) => s.term.pc == WaitingAdmin
    case _ => false
  }

  lemma {:induction false} OutsideActs(c: Env, run: seq<Action>, a: Action)
    requires Exec(c, run).Some? && Uncontrolled(c, Exec(c, run).value, a)
    ensures Exec(c, run + [a]).Some?
  {
    assert (run + [a])[..|run + [a]| - 1] == run;
    OutsideEnabled(c, Exec(c, run).value, a);
  }

  lemma OutsideEnabled(c: Env, s: Sys, a: Action)
    requires Uncontrolled(c, s, a)
    ensures Enabled(c, s, a)
  {}

  /** Nobody enters in the future. */
  ghost predicate EnteredPast(s: Sys) {
    s.clock >= 0 && forall k :: 0 <= k < |s.reqs| ==> s.reqs[k].entered <= s.clock
  }

  lemma EnteredStep(c: Env, s: Sys, a: Action, t: Sys)
    requires EnteredPast(s) && Next(c, s, a, t)
    ensures EnteredPast(t)
  {
    ClockStep(c, s, a, t);
    forall k | 0 <= k < |t.reqs| ensures t.reqs[k].entered <= t.clock {
      if k >= |s.reqs| {
        NewRequest(c, s, a, t, k);
      } else if a.OfRequest? && a.k == k {
        RequestFrame(c, s, k, a.r);
      } else {
        SameRequest(c, s, a, t, k);
      }
    }
  }

  lemma ClockStep(c: Env, s: Sys, a: Action, t: Sys)
    requires Next(c, s, a, t)
    ensures t.clock == s.clock + if a.Tick? then 1 else 0
  {
    match a
    case OfRequest(k, step) => RequestFrame(c, s, k, step);
    case OfListener(isEval, l) => ListenerFrame(s, isEval, l);
    case OfStarter(step) => StarterFrame(s, step);
    case _ =>
  }

  lemma {:induction false} RecordedDurations(c: Env, run: seq<Action>)
    requires Exec(c, run).Some?
    ensures EnteredPast(Exec(c, run).value) && Metrics.NonNegative(Exec(c, run).value.log)
  {
    if run != [] {
      LastStep(c, run);
      var front, a := run[..|run| - 1], run[|run| - 1];
      RecordedDurations(c, front);
      var s, t := Exec(c, front).value, Exec(c, run).value;
      EnteredStep(c, s, a, t);
      LogStep(c, s, a, t);
    }
  }

  lemma LogStep(c: Env, s: Sys, a: Action, t: Sys)
    requires EnteredPast(s) && Metrics.NonNegative(s.log) && Next(c, s, a, t)
    ensures Metrics.NonNegative(t.log)
  {
    if a.OfRequest? {
      if a.r.Observe? {
        ObservedFrame(c, s, a.k, t);
      } else {
        UncountedFrame(c, s, a.k, a.r);
      }
    } else if !a.Connect? {
      ElsewhereFrame(c, s, a, t);
    }
  }

  /** In every run, what the exported buckets say of an outcome brackets the sum of its durations. */
  lemma {:induction false} RunSumBracketed(c: Env, run: seq<Action>, o: Metrics.Outcome)
    requires Exec(c, run).Some? && |Exec(c, run).value.log| < Metrics.COUNTER_RANGE
    requires o in Exec(c, run).value.registry.durations
    ensures Metrics.SumWithin(Exec(c, run).value.registry.durations[o])
  {
    Reachable(c, run);
    RecordedDurations(c, run);
    Metrics.SumBracketed(Exec(c, run).value.log, o);
  }

  // ----- the last error

  /** What an action leaves as the last error: a failed initialization, a timeout or an error when its
      request is concluded, with the flag's key and what happened; anything else leaves the one before. */
  function LastErrorAfter(s: Sys, a: Action): Option<string> {
    if a == OfStarter(InitFail) then Some("provider initialization failed")
    else if a.OfRequest? && a.r.Conclude? && a.k < |s.reqs| && HasReply(s.reqs[a.k].phase) then
      var r := s.reqs[a.k];
      var reply := r.phase.reply;
      if reply.outcome == Metrics.Timeout then Some(r.input.key + ": " + "evaluation timed out")
      else if reply.outcome == Metrics.Error && reply.body.FailureBody? && reply.body.details.Reported? then
        Some(r.input.key + ": " + reply.body.details.message)
      else s.registry.lastError
    else s.registry.lastError
  }

  lemma {:induction false} LastErrorTold(c: Env, run: seq<Action>, a: Action)
    requires Exec(c, run + [a]).Some?
    ensures Exec(c, run).Some?
    ensures Exec(c, run + [a]).value.registry.lastError == LastErrorAfter(Exec(c, run).value, a)
  {
    assert (run + [a])[..|run + [a]| - 1] == run;
    LastStep(c, run + [a]);
    var s, t := Exec(c, run).value, Exec(c, run + [a]).value;
    if a.OfRequest? {
      if a.r.Conclude? {
        EveryReplyMeetsContract(c, run, a.k);
        var r := s.reqs[a.k];
        FailureWorded(r.sawStopped, r.input, c.limits, r.sawState, r.picked, r.phase.reply);
        ConcludedError(c, s, a.k);
      } else {
        NoErrorYet(c, s, a.k, a.r);
      }
    } else if a.OfStarter? {
      StarterError(s, a.s);
    } else if !a.Connect? {
      ElsewhereFrame(c, s, a, t);
    }
  }

  lemma ConcludedError(c: Env, s: Sys, k: nat)
    requires Metrics.Shaped(s.registry) && k < |s.reqs| && s.reqs[k].phase.Counted?
    requires var reply := s.reqs[k].phase.reply;
             && (reply.outcome == Metrics.Timeout ==> reply.body.FailureBody? && reply.body.details == TimedOut)
             && (reply.outcome == Metrics.Error ==> reply.body.FailureBody? && reply.body.details.Reported?)
    ensures StepRequest(c, s, k, Conclude).registry.lastError == LastErrorAfter(s, OfRequest(k, Conclude))
  {}

  lemma NoErrorYet(c: Env, s: Sys, k: nat, step: ReqStep)
    requires Metrics.Shaped(s.registry) && k < |s.reqs| && ReqEnabled(s, s.reqs[k], step) && !step.Conclude?
    ensures StepRequest(c, s, k, step).registry.lastError == s.registry.lastError
  {}

  lemma StarterError(s: Sys, step: StartStep)
    requires StartEnabled(s, step)
    ensures StepStart(s, step).registry.lastError == LastErrorAfter(s, OfStarter(step))
  {}

  // ----- the reports

  /** The readiness probe answers 200 from the moment the provider became ready until shutdown begins, and
      at no other time, and tells since when. */
  lemma {:induction false} ProbeExactly(c: Env, run: seq<Action>)
    requires Exec(c, run).Some?
    ensures var s := Exec(c, run).value;
            && (Readyz(s.life).status == 200 <==> s.life.readyAt.Some? && s.term.pc == Idle)
            && (Readyz(s.life).status == 200 || Readyz(s.life).status == 503)
            && (Readyz(s.life).status == 200 ==> Readyz(s.life).readyAt == s.life.readyAt)
  {
    Reachable(c, run);
    ReadyzTells(Exec(c, run).value.life);
  }

  /** The status report counts the requests counted, and agrees with the probe and the metrics. */
  lemma {:induction false} StatusExactly(c: Env, run: seq<Action>, o: Metrics.Outcome)
    requires Exec(c, run).Some?
    ensures var s := Exec(c, run).value;
            var report := Status(s.life, s.registry);
            && Metrics.Counter(report.evaluations, o) == Metrics.Wrap(CountedAs(s.reqs, o))
            && (report.state == Ready <==> Readyz(s.life).status == 200)
            && (report.state == ShuttingDown <==> s.term.pc != Idle)
            && (s.starter.Returned? ==> report.readyAt == s.registry.providerAt)
            && report.lastError == s.registry.lastError
  {
    Reachable(c, run);
    ProbeExactly(c, run);
    Conservation(c, run);
  }
}
