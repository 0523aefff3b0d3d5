/** The whole process as an interleaving of atomic steps: request handlers with their evaluator
    goroutines, the starter, two listeners, and the termination sequence.

    Assumptions about code outside the repository are the guards of the steps:
    - http.Server.Shutdown stops the listener from accepting, returns nil only when no connection is
      active, and otherwise returns an error once its deadline has passed;
    - ListenAndServe returns ErrServerClosed once its server is shutting down, also when it had not
      started, but a bind that fails is an error in any case;
    - the context's cleanup starts once the context has ended, and Wait returns when the cleanup and
      every task have finished, with everything they reported;
    - Start runs once; the provider's initialization may return at any time;
    - an evaluation may take arbitrarily long, or never return. */
module Lifecycle {
  import opened Wrappers
  import Metrics
  import opened Ofrep
  import opened Request
  import opened Bridge
  import opened Evaluation
  import opened Config

  datatype Env = Env(settings: Settings, limits: Limits)

  // ----- one request

  datatype Phase =
    | Connected                     // accepted, no request read yet
    | Dropped                       // closed without a request
    | Entered                       // in the handler, before the stopped check
    | Admitted                      // the stopped check passed
    | Parsed                        // the context decoded
    | Gated                         // the state check passed
    | Selecting(deadline: int)      // waiting for the evaluation or the deadline
    | Answered(reply: Reply)        // evaluate returned
    | Written(reply: Reply)         // the response is written, not yet counted
    | Counted(reply: Reply)         // counted, a failure not yet recorded
    | Finished(reply: Reply)        // the handler returned

  datatype Evaluator =
    | Unborn
    | Spawned                       // the goroutine exists, Evaluate not called yet
    | Running                       // inside Evaluate
    | Returned(result: Evaluated)   // about to send
    | Sent(result: Evaluated)

  /** A connection with its handler, its evaluator goroutine and the capacity-1 channel between
      them; the last four fields record what the handler saw. */
  datatype Req = Req(
    input: Request,
    decoded: Result<EvaluationContext, Reply>,
    phase: Phase,
    evaluator: Evaluator,
    channel: Option<Evaluated>,
    hungUp: bool,
    entered: int,
    sawStopped: bool,
    sawState: State,
    picked: Selected)

  datatype ReqStep =
    | Drop | Enter | CheckStopped | Decode | CheckState | Spawn
    | BeginEvaluate | EndEvaluate(result: Evaluated) | Send
    | Receive | Expire | HangUp
    | Write | Observe | Conclude

  // ----- the other actors

  datatype Listen = Unstarted | Binding | Serving | Closed(failed: bool)

  datatype Server = Server(listen: Listen, closing: bool)

  datatype ListenStep = Launch | Bind(ok: bool) | Stop(failed: bool)

  datatype Starter =
    | Waiting
    | Failed                        // the error is recorded, the context not yet consulted
    | Blaming                       // the context was alive, not yet cancelled
    | Initialized(at: int)          // before the critical section
    | Announcing(at: int)           // after it, the metric not yet set
    | Returned(recorded: bool, failed: bool)

  datatype StartStep = InitOk | InitFail | Consult | Blame | Lock | Announce

  datatype StopError = DrainError | ProviderError | AdminError

  datatype Pc =
    | Idle | Draining | Arming | ClosingEval | WaitingEval | BeforeFlush | Flushing
    | StoppingTracer | ClosingAdmin | WaitingAdmin | Terminated

  datatype Term = Term(pc: Pc, began: int, deadline: int, errs: seq<StopError>, tracing: int)

  datatype TermStep =
    | Begin | StopServing | Arm | CloseEval | EvalClosed(failed: bool) | Flush | Flushed(failed: bool)
    | TracerStopped | CloseAdmin | AdminClosed(failed: bool)

  datatype Cause = Signalled | ListenerFailed | StartFailed

  // ----- the process

  datatype Sys = Sys(
    clock: int,
    cause: Option<Cause>,
    life: Lifecycle,
    stopped: bool,
    registry: Metrics.Registry,
    log: seq<Metrics.Observation>,   // what was observed, in order
    reqs: seq<Req>,
    eval: Server,
    admin: Server,
    starter: Starter,
    term: Term)

  datatype Action =
    | Tick
    | Signal
    | Connect(input: Request, decoded: Result<EvaluationContext, Reply>)
    | OfRequest(k: nat, r: ReqStep)
    | OfListener(isEval: bool, l: ListenStep)
    | OfStarter(s: StartStep)
    | OfTerm(t: TermStep)

  const INITIAL := Sys(
    0, None, FRESH, false, Metrics.EMPTY, [], [],
    Server(Unstarted, false), Server(Unstarted, false), Waiting, Term(Idle, 0, 0, [], 0))

  /** The cause of a cancelled context is the first one. */
  function Cancel(s: Sys, cause: Cause): Sys {
    if s.cause.Some? then s else s.(cause := Some(cause))
  }

  predicate HasReply(p: Phase) { p.Answered? || p.Written? || p.Counted? || p.Finished? }

  /** The server sees the connection as neither active nor idle. */
  predicate Quiet(r: Req) { r.phase.Dropped? || r.phase.Finished? }

  predicate AllQuiet(reqs: seq<Req>) { forall k :: 0 <= k < |reqs| ==> Quiet(reqs[k]) }

  // ----- steps of a request

  predicate ReqEnabled(s: Sys, r: Req, step: ReqStep) {
    match step
    case Drop => r.phase.Connected?
    case Enter => r.phase.Connected?
    case CheckStopped => r.phase.Entered?
    case Decode => r.phase.Admitted?
    case CheckState => r.phase.Parsed?
    case Spawn => r.phase.Gated?
    case BeginEvaluate => r.evaluator.Spawned?
    case EndEvaluate(_) => r.evaluator.Running?
    case Send => r.evaluator.Returned? && r.channel.None?
    case Receive => r.phase.Selecting? && r.channel.Some?
    case Expire => r.phase.Selecting? && (s.clock >= r.phase.deadline || r.hungUp)
    case HangUp => true
    case Write => r.phase.Answered?
    case Observe => r.phase.Written?
    case Conclude => r.phase.Counted?
  }

  function StepReq(c: Env, s: Sys, r: Req, step: ReqStep): Req
    requires ReqEnabled(s, r, step)
  {
    var key := r.input.key;
    match step
    case Drop => r.(phase := Dropped)
    case Enter => r.(phase := Entered, entered := s.clock)
    case CheckStopped => r.(sawStopped := s.stopped, phase := if s.stopped then Answered(Stopped(key)) else Admitted)
    case Decode => r.(phase := if r.decoded.Failure? then Answered(r.decoded.error) else Parsed)
    case CheckState =>
      r.(sawState := s.life.state, phase := if s.life.state == Starting then Answered(Unready(key)) else Gated)
    case Spawn => r.(phase := Selecting(s.clock + c.settings.handlerTimeout), evaluator := Spawned)
    case BeginEvaluate => r.(evaluator := Running)
    case EndEvaluate(e) => r.(evaluator := Evaluator.Returned(e))
    case Send => r.(evaluator := Sent(r.evaluator.result), channel := Some(r.evaluator.result))
    case Receive =>
      var selected := Received(r.channel.value);
      r.(picked := selected, phase := Answered(Answer(key, selected)), channel := None)
    case Expire => r.(picked := Expired, phase := Answered(Answer(key, Expired)))
    case HangUp => r.(hungUp := true)
    case Write => r.(phase := Written(r.phase.reply))
    case Observe => r.(phase := Counted(r.phase.reply))
    case Conclude => r.(phase := Finished(r.phase.reply))
  }

  function Observed(s: Sys, r: Req): Metrics.Observation
    requires HasReply(r.phase)
  {
    Metrics.Observation(r.phase.reply.outcome, (s.clock - r.entered) as real / 1_000_000_000.0)
  }

  // ----- enabling and applying every action

  function ServerOf(s: Sys, isEval: bool): Server { if isEval then s.eval else s.admin }

  predicate ListenEnabled(v: Server, l: ListenStep) {
    match l
    case Launch => v.listen.Unstarted?
    case Bind(_) => v.listen.Binding?
    case Stop(failed) => v.listen.Serving? && failed == !v.closing
  }

  function StepListen(v: Server, l: ListenStep): Server
    requires ListenEnabled(v, l)
  {
    match l
    case Launch => v.(listen := if v.closing then Closed(false) else Binding)
    case Bind(ok) => v.(listen := if ok then Serving else Closed(true))
    case Stop(failed) => v.(listen := Closed(failed))
  }

  predicate StartEnabled(s: Sys, step: StartStep) {
    match step
    case InitOk => s.starter.Waiting?
    case InitFail => s.starter.Waiting?
    case Consult => s.starter.Failed?
    case Blame => s.starter.Blaming?
    case Lock => s.starter.Initialized?
    case Announce => s.starter.Announcing?
  }

  function StepStart(s: Sys, step: StartStep): Sys
    requires StartEnabled(s, step)
  {
    match step
    case InitOk => s.(starter := Initialized(s.clock))
    case InitFail => s.(starter := Failed, registry := Metrics.Fail(s.registry, "provider initialization failed"))
    case Consult => s.(starter := if s.cause.Some? then Starter.Returned(true, false) else Blaming)
    case Blame => Cancel(s, StartFailed).(starter := Starter.Returned(true, true))
    case Lock =>
      var life := Started(s.life, s.starter.at);
      s.(life := life,
         starter := if life.state == Ready then Announcing(s.starter.at) else Starter.Returned(false, false))
    case Announce =>
      s.(registry := Metrics.ReadyAt(s.registry, s.starter.at), starter := Starter.Returned(false, false))
  }

  predicate TermEnabled(c: Env, s: Sys, t: TermStep) {
    match t
    case Begin => s.term.pc == Idle && s.cause.Some?
    case StopServing => s.term.pc == Draining && s.clock >= s.term.began + c.settings.drainDelay
    case Arm => s.term.pc == Arming
    case CloseEval => s.term.pc == ClosingEval
    case EvalClosed(failed) =>
      s.term.pc == WaitingEval && if failed then s.clock >= s.term.deadline else AllQuiet(s.reqs)
    case Flush => s.term.pc == BeforeFlush
    case Flushed(_) => s.term.pc == Flushing
    case TracerStopped => s.term.pc == StoppingTracer
    case CloseAdmin => s.term.pc == ClosingAdmin
    case AdminClosed(_) => s.term.pc == WaitingAdmin
  }

  function Join(errs: seq<StopError>, failed: bool, e: StopError): seq<StopError> {
    if failed then errs + [e] else errs
  }

  function StepTerm(c: Env, s: Sys, t: TermStep): Sys
    requires TermEnabled(c, s, t)
  {
    var term := s.term;
    match t
    case Begin => s.(life := Stopping(s.life), term := term.(pc := Draining, began := s.clock))
    case StopServing => s.(stopped := true, term := term.(pc := Arming))
    case Arm => s.(term := term.(pc := ClosingEval, deadline := s.clock + c.settings.shutdownTimeout))
    case CloseEval => s.(eval := s.eval.(closing := true), term := term.(pc := WaitingEval))
    case EvalClosed(failed) => s.(term := term.(pc := BeforeFlush, errs := Join(term.errs, failed, DrainError)))
    case Flush => s.(life := Stopping(s.life), term := term.(pc := Flushing))
    case Flushed(failed) => s.(term := term.(pc := StoppingTracer, errs := Join(term.errs, failed, ProviderError)))
    case TracerStopped => s.(term := term.(pc := ClosingAdmin))
    case CloseAdmin => s.(admin := s.admin.(closing := true), term := term.(pc := WaitingAdmin))
    case AdminClosed(failed) => s.(term := term.(pc := Terminated, errs := Join(term.errs, failed, AdminError)))
  }

  /** Time passes; the tracer's stop has no deadline, so its time is kept apart. */
  function StepTick(s: Sys): Sys {
    s.(clock := s.clock + 1,
       term := if s.term.pc == StoppingTracer then s.term.(tracing := s.term.tracing + 1) else s.term)
  }

  ghost predicate Enabled(c: Env, s: Sys, a: Action) {
    match a
    case Tick => true
    case Signal => true
    case Connect(input, decoded) => s.eval.listen.Serving? && !s.eval.closing && Decodes(input, c.limits, decoded)
    case OfRequest(k, r) => k < |s.reqs| && ReqEnabled(s, s.reqs[k], r)
    case OfListener(isEval, l) => ListenEnabled(ServerOf(s, isEval), l)
    case OfStarter(step) => StartEnabled(s, step)
    case OfTerm(t) => TermEnabled(c, s, t)
  }

  /** A listener that fails cancels the context. */
  function StepServer(s: Sys, isEval: bool, l: ListenStep): Sys
    requires ListenEnabled(ServerOf(s, isEval), l)
  {
    var v := StepListen(ServerOf(s, isEval), l);
    var t := if isEval then s.(eval := v) else s.(admin := v);
    if v.listen == Closed(true) then Cancel(t, ListenerFailed) else t
  }

  function StepRequest(c: Env, s: Sys, k: nat, step: ReqStep): Sys
    requires k < |s.reqs| && ReqEnabled(s, s.reqs[k], step)
    requires Metrics.Shaped(s.registry)
  {
    var r := s.reqs[k];
    var t := s.(reqs := s.reqs[k := StepReq(c, s, r, step)]);
    match step
    case Observe => t.(registry := Metrics.Observe(s.registry, Observed(s, r)), log := s.log + [Observed(s, r)])
    case Conclude =>
      if Failing(r.phase.reply.outcome) then
        t.(registry := Metrics.Fail(s.registry, ErrorText(r.input.key, r.phase.reply.body)))
      else t
    case _ => t
  }

  function Arrived(input: Request, decoded: Result<EvaluationContext, Reply>): Req {
    Req(input, decoded, Connected, Unborn, None, false, 0, false, Starting, Expired)
  }

  ghost function Apply(c: Env, s: Sys, a: Action): Sys
    requires Enabled(c, s, a) && Metrics.Shaped(s.registry)
  {
    match a
    case Tick => StepTick(s)
    case Signal => Cancel(s, Signalled)
    case Connect(input, decoded) => s.(reqs := s.reqs + [Arrived(input, decoded)])
    case OfRequest(k, r) => StepRequest(c, s, k, r)
    case OfListener(isEval, l) => StepServer(s, isEval, l)
    case OfStarter(step) => StepStart(s, step)
    case OfTerm(t) => StepTerm(c, s, t)
  }

  // ----- runs

  /** The state after a run, None when some action of it was not enabled. */
  ghost function Exec(c: Env, run: seq<Action>): (r: Option<Sys>)
    ensures r.Some? ==> Metrics.Shaped(r.value.registry)
  {
    if run == [] then Some(INITIAL)
    else
      match Exec(c, run[..|run| - 1])
      case None => None
      case Some(s) =>
        if Enabled(c, s, run[|run| - 1]) then
          ShapedKept(c, s, run[|run| - 1]);
          Some(Apply(c, s, run[|run| - 1]))
        else None
  }

  lemma ShapedKept(c: Env, s: Sys, a: Action)
    requires Metrics.Shaped(s.registry) && Enabled(c, s, a)
    ensures Metrics.Shaped(Apply(c, s, a).registry)
  {}

  /** `t` is reached from `s` by one action. */
  ghost predicate Next(c: Env, s: Sys, a: Action, t: Sys) {
    Metrics.Shaped(s.registry) && Enabled(c, s, a) && t == Apply(c, s, a)
  }

  /** A run that reaches a state passes, before each of its actions, through a state where the
      action is enabled and from which it leads on. */
  lemma {:induction false} LastStep(c: Env, run: seq<Action>)
    requires run != [] && Exec(c, run).Some?
    ensures Exec(c, run[..|run| - 1]).Some?
    ensures Next(c, Exec(c, run[..|run| - 1]).value, run[|run| - 1], Exec(c, run).value)
  {}
}
