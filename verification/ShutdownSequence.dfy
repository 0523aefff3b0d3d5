/** The termination sequence as the process runs it: side effects in order, every error collected,
    one deadline for all three stops. */
module ShutdownSequence {
  import opened Wrappers
  import opened Bridge
  import opened Evaluation
  import opened Config
  import opened Lifecycle
  import opened Termination

  /** How long each stop would take by itself, None for one that never finishes; and whether the
      provider's shutdown fails although it had the time. */
  datatype Script = Script(
    eval: Option<nat>,
    provider: Option<nat>,
    providerFails: bool,
    tracer: nat,
    admin: Option<nat>)

  /** A stop under a deadline fails exactly when it cannot finish by then. */
  predicate Overruns(now: int, deadline: int, needs: Option<nat>) {
    needs.None? || (needs.value > 0 && now + needs.value > deadline)
  }

  /** When such a stop returns. */
  function Until(now: int, deadline: int, needs: Option<nat>): int {
    if !Overruns(now, deadline, needs) then now + needs.value else if now < deadline then deadline else now
  }

  /** A stop that can finish by the deadline, or has nothing to do, takes its own time and succeeds; any
      other fails, and returns at the deadline or at once when that has passed. */
  lemma StopMeaning(now: int, deadline: int, needs: Option<nat>)
    ensures needs.Some? && (needs.value == 0 || now + needs.value <= deadline) ==>
              !Overruns(now, deadline, needs) && Until(now, deadline, needs) == now + needs.value
    ensures !(needs.Some? && (needs.value == 0 || now + needs.value <= deadline)) ==>
              && Overruns(now, deadline, needs)
              && Until(now, deadline, needs) == (if now <= deadline then deadline else now)
  {}

  /** What one termination step adds to the errors. */
  function Noting(errs: seq<StopError>, t: TermStep): seq<StopError> {
    if t.EvalClosed? then Join(errs, t.failed, DrainError)
    else if t.Flushed? then Join(errs, t.failed, ProviderError)
    else if t.AdminClosed? then Join(errs, t.failed, AdminError)
    else errs
  }

  /** The errors a list of termination steps reported, in order. */
  function Reported(steps: seq<TermStep>): seq<StopError> {
    if steps == [] then [] else Noting(Reported(steps[..|steps| - 1]), steps[|steps| - 1])
  }

  lemma ReportedNext(steps: seq<TermStep>, t: TermStep)
    ensures Reported(steps + [t]) == Noting(Reported(steps), t)
  {
    assert (steps + [t])[..|steps + [t]| - 1] == steps;
  }

  /** The errors of a sequence's failed stops, in order. */
  function Joined(drain: bool, provider: bool, admin: bool): seq<StopError> {
    Join(Join(Join([], drain, DrainError), provider, ProviderError), admin, AdminError)
  }

  /** The full sequence, with what its three stops reported. */
  function Sequence(drain: bool, provider: bool, admin: bool): seq<TermStep> {
    [Begin, StopServing, Arm, CloseEval, EvalClosed(drain), Flush, Flushed(provider), TermStep.TracerStopped,
     CloseAdmin, AdminClosed(admin)]
  }

  /** A completed sequence: which stops failed, and the errors joined. */
  datatype Stops = Stops(drain: bool, provider: bool, admin: bool, errs: seq<StopError>)

  /** When the evaluation listener, the provider with the tracer, and the operational listener are done,
      counted from when the one timeout was armed. */
  function DrainedBy(script: Script, timeout: int): int { Until(0, timeout, script.eval) }

  function FlushedBy(script: Script, timeout: int): int {
    Until(DrainedBy(script, timeout), timeout, script.provider) + script.tracer
  }

  function StoppedBy(script: Script, timeout: int): int {
    Until(FlushedBy(script, timeout), timeout, script.admin)
  }

  /** Which stops fail when the three share one timeout. */
  predicate Scripted(script: Script, timeout: int, stops: Stops) {
    && (stops.drain <==> Overruns(0, timeout, script.eval))
    && (stops.provider <==> script.providerFails || Overruns(DrainedBy(script, timeout), timeout, script.provider))
    && (stops.admin <==> Overruns(FlushedBy(script, timeout), timeout, script.admin))
  }

  class Process {
    const settings: Settings
    const bridge: Bridge
    const handler: Handler
    var now: int
    /** The termination steps taken, in order. */
    var steps: seq<TermStep>

    constructor (settings: Settings, bridge: Bridge, handler: Handler)
      ensures this.settings == settings && this.bridge == bridge && this.handler == handler && steps == []
    {
      this.settings, this.bridge, this.handler := settings, bridge, handler;
      now, steps := 0, [];
    }

    /** Readiness drops first and serving stops after the drain delay. */
    method Drain()
      requires settings.drainDelay >= 0
      modifies this`now, this`steps, bridge`state, handler`stopped
      ensures bridge.View() == Stopping(old(bridge.View())) && handler.stopped
      ensures now == old(now) + settings.drainDelay
      ensures steps == old(steps) + [Begin, StopServing]
    {
      bridge.BeginShutdown();
      steps := steps + [Begin];
      if settings.drainDelay > 0 {
        now := now + settings.drainDelay;
      }
      handler.StopServing();
      steps := steps + [StopServing];
    }

    /** Waits for a stop that works under the deadline. */
    method Await(deadline: int, needs: Option<nat>) returns (failed: bool)
      modifies this`now
      ensures failed <==> Overruns(old(now), deadline, needs)
      ensures now == Until(old(now), deadline, needs)
    {
      failed := Overruns(now, deadline, needs);
      now := Until(now, deadline, needs);
    }

    /** Stops accepting evaluations and waits for the handlers. */
    method StopEval(deadline: int, script: Script) returns (failed: bool)
      modifies this`now, this`steps
      ensures failed <==> Overruns(old(now), deadline, script.eval)
      ensures now == Until(old(now), deadline, script.eval)
      ensures steps == old(steps) + [CloseEval, EvalClosed(failed)]
    {
      steps := steps + [CloseEval];
      failed := Await(deadline, script.eval);
      steps := steps + [EvalClosed(failed)];
    }

    /** Flushes the provider and stops the tracer, which takes its own time. */
    method StopBridge(deadline: int, script: Script) returns (failed: bool)
      modifies this`now, this`steps, bridge`state, bridge`effects
      ensures bridge.View() == Stopping(old(bridge.View()))
      ensures bridge.effects == old(bridge.effects) + [ProviderShutDown(failed), Effect.TracerStopped]
      ensures failed <==> script.providerFails || Overruns(old(now), deadline, script.provider)
      ensures now == Until(old(now), deadline, script.provider) + script.tracer
      ensures steps == old(steps) + [Flush, Flushed(failed), TermStep.TracerStopped]
    {
      steps := steps + [Flush];
      var late := Await(deadline, script.provider);
      failed := bridge.Shutdown(late || script.providerFails);
      steps := steps + [Flushed(failed)];
      now := now + script.tracer;
      steps := steps + [TermStep.TracerStopped];
    }

    method StopAdmin(deadline: int, script: Script) returns (failed: bool)
      modifies this`now, this`steps
      ensures failed <==> Overruns(old(now), deadline, script.admin)
      ensures now == Until(old(now), deadline, script.admin)
      ensures steps == old(steps) + [CloseAdmin, AdminClosed(failed)]
    {
      steps := steps + [CloseAdmin];
      failed := Await(deadline, script.admin);
      steps := steps + [AdminClosed(failed)];
    }

    /** The three stops under one deadline. Each is taken whatever failed before it, and fails exactly
        when it cannot finish within what the earlier ones left of the timeout. */
    method StopAll(script: Script) returns (stops: Stops)
      requires settings.shutdownTimeout > 0
      modifies this`now, this`steps, bridge`state, bridge`effects
      ensures bridge.View() == Stopping(old(bridge.View()))
      ensures bridge.effects == old(bridge.effects) + [ProviderShutDown(stops.provider), Effect.TracerStopped]
      ensures steps == old(steps) + Sequence(stops.drain, stops.provider, stops.admin)[2..]
      ensures stops.errs == Joined(stops.drain, stops.provider, stops.admin)
      ensures Scripted(script, settings.shutdownTimeout, stops)
      ensures now == old(now) + StoppedBy(script, settings.shutdownTimeout)
    {
      var deadline := now + settings.shutdownTimeout;
      steps := steps + [Arm];
      var errs := [];
      var drain := StopEval(deadline, script);
      if drain { errs := errs + [DrainError]; }
      var provider := StopBridge(deadline, script);
      if provider { errs := errs + [ProviderError]; }
      var admin := StopAdmin(deadline, script);
      if admin { errs := errs + [AdminError]; }
      stops := Stops(drain, provider, admin, errs);
    }

    /** The whole sequence: its effects in order, the errors of the stops that failed, and exactly the
        time the script determines. */
    method Shutdown(script: Script) returns (stops: Stops)
      requires Bounded(settings)
      modifies this`now, this`steps, bridge`state, bridge`effects, handler`stopped
      ensures bridge.View() == Stopping(old(bridge.View())) && handler.stopped
      ensures steps == old(steps) + Sequence(stops.drain, stops.provider, stops.admin)
      ensures stops.errs == Joined(stops.drain, stops.provider, stops.admin)
      ensures Scripted(script, settings.shutdownTimeout, stops)
      ensures bridge.effects == old(bridge.effects) + [ProviderShutDown(stops.provider), Effect.TracerStopped]
      ensures now == old(now) + settings.drainDelay + StoppedBy(script, settings.shutdownTimeout)
    {
      Drain();
      stops := StopAll(script);
      SequenceSplit(old(steps), Sequence(stops.drain, stops.provider, stops.admin));
    }
  }

  lemma SequenceSplit(before: seq<TermStep>, s: seq<TermStep>)
    requires |s| > 2
    ensures before + s[..2] + s[2..] == before + s
  {}

  /** When everything fits into the timeout and the provider does not fail by itself, no stop fails and no
      time is lost. */
  lemma EnoughTime(script: Script, timeout: int, stops: Stops)
    requires Scripted(script, timeout, stops) && !script.providerFails
    requires script.eval.Some? && script.provider.Some? && script.admin.Some?
    requires script.eval.value + script.provider.value + script.tracer + script.admin.value <= timeout
    ensures !stops.drain && !stops.provider && !stops.admin
    ensures StoppedBy(script, timeout) == script.eval.value + script.provider.value + script.tracer + script.admin.value
  {}

  /** The time after the drain delay stays within the timeout exactly when the tracer had stopped by then;
      without the tracer it always does. */
  lemma StoppedInTime(script: Script, timeout: int)
    requires timeout > 0
    ensures StoppedBy(script, timeout) <= timeout <==> FlushedBy(script, timeout) <= timeout
    ensures FlushedBy(script, timeout) - script.tracer <= timeout
  {}

  /** The errors of the whole sequence are those of its failed stops, and the sequence is the one every
      interleaved run takes: each termination step once, in order. */
  lemma SequenceReports(drain: bool, provider: bool, admin: bool)
    ensures Reported(Sequence(drain, provider, admin)) == Joined(drain, provider, admin)
    ensures forall i :: 0 <= i < 10 ==> StepIndex(Sequence(drain, provider, admin)[i]) == i
  {
    var s := Sequence(drain, provider, admin);
    for n := 1 to 11
      invariant Reported(s[..n - 1]) == Joined(n > 5 && drain, n > 7 && provider, n > 10 && admin)
    {
      ReportedTake(s, n);
    }
    assert s[..10] == s;
  }

  lemma ReportedTake(steps: seq<TermStep>, n: nat)
    requires 0 < n <= |steps|
    ensures Reported(steps[..n]) == Noting(Reported(steps[..n - 1]), steps[n - 1])
  {
    assert steps[..n][..n - 1] == steps[..n - 1];
  }

  /** The interleaved process takes the same steps with the same errors: in every run the errors
      collected are those of the termination steps taken. */
  lemma {:induction false} SameErrors(c: Env, run: seq<Action>)
    requires Exec(c, run).Some?
    ensures Exec(c, run).value.term.errs == Reported(TermSteps(run))
  {
    if run != [] {
      LastStep(c, run);
      var front, a := run[..|run| - 1], run[|run| - 1];
      SameErrors(c, front);
      if a.OfTerm? {
        ReportedNext(TermSteps(front), a.t);
      } else {
        PcFrame(c, Exec(c, front).value, a, Exec(c, run).value);
        assert TermSteps(front) + [] == TermSteps(front);
      }
    }
  }
}
