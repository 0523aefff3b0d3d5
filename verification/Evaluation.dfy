/** The single-flag handler: its gates, the race between evaluation and timeout, and what it
    leaves in the registry. */
module Evaluation {
  import opened Wrappers
  import Metrics
  import opened MetricsRegistry
  import opened Ofrep
  import opened Request
  import opened Bridge

  datatype Evaluated = Evaluated(details: Details, err: Option<EvalError>)

  /** What the handler's select came back with. */
  datatype Selected = Received(result: Evaluated) | Expired

  function Stopped(key: string): Reply {
    Reply(503, FailureBody(key, GENERAL, NoLongerServing, None), Metrics.NotReady, true)
  }

  function Unready(key: string): Reply {
    Reply(503, FailureBody(key, PROVIDER_NOT_READY, NoConfiguration, None), Metrics.NotReady, true)
  }

  function Answer(key: string, selected: Selected): Reply {
    match selected
    case Received(e) => MapResult(key, e.details, e.err)
    case Expired => Reply(503, FailureBody(key, GENERAL, TimedOut, None), Metrics.Timeout, true)
  }

  /** The reply of one request, from everything the handler saw on its way. */
  function Evaluate(stopped: bool, key: string, decoded: Result<EvaluationContext, Reply>, state: State,
    selected: Selected): Reply
  {
    if stopped then Stopped(key)
    else if decoded.Failure? then decoded.error
    else if state == Starting then Unready(key)
    else Answer(key, selected)
  }

  /** `reply` is the handler's reply to a request, given the stopped flag, the state and the select it
      came to; the decoding is the one the request determines. */
  ghost predicate Replies(stopped: bool, r: Request, limits: Limits, state: State, selected: Selected, reply: Reply) {
    exists decoded ::
      (stopped || Decodes(r, limits, decoded)) && reply == Evaluate(stopped, r.key, decoded, state, selected)
  }

  /** What the handler saw determines its reply. */
  lemma RepliesOnce(stopped: bool, r: Request, limits: Limits, state: State, selected: Selected, a: Reply, b: Reply)
    requires Replies(stopped, r, limits, state, selected, a) && Replies(stopped, r, limits, state, selected, b)
    ensures a == b
  {
    if !stopped {
      var x :| Decodes(r, limits, x) && a == Evaluate(stopped, r.key, x, state, selected);
      var y :| Decodes(r, limits, y) && b == Evaluate(stopped, r.key, y, state, selected);
      DecodesOnce(r, limits, x, y);
    }
  }

  /** Whatever the handler saw, its reply meets the response contract. */
  lemma ReplyContract(stopped: bool, r: Request, limits: Limits, state: State, selected: Selected, reply: Reply)
    requires Replies(stopped, r, limits, state, selected, reply)
    ensures Contract(r.key, reply)
  {
    var decoded :|
      (stopped || Decodes(r, limits, decoded)) && reply == Evaluate(stopped, r.key, decoded, state, selected);
    if selected.Received? { MappedContract(r.key, selected.result.details, selected.result.err); }
  }

  // ----- what each gate answers

  /** The request got past the stopped check, its decoding and the state check. */
  ghost predicate PastGates(stopped: bool, r: Request, limits: Limits, state: State) {
    !stopped && state != Starting && exists context :: Decodes(r, limits, Success(context))
  }

  /** A request that meets the stopped flag is refused, and one that meets a provider that never became
      ready is told so. */
  lemma GatesAnswer(stopped: bool, r: Request, limits: Limits, state: State, selected: Selected, reply: Reply)
    requires Replies(stopped, r, limits, state, selected, reply)
    ensures stopped ==>
              reply == Reply(503, FailureBody(r.key, "GENERAL", NoLongerServing, None), Metrics.NotReady, true)
    ensures !stopped && state == Starting && (exists context :: Decodes(r, limits, Success(context))) ==>
              reply
              == Reply(503, FailureBody(r.key, "PROVIDER_NOT_READY", NoConfiguration, None), Metrics.NotReady, true)
    ensures !stopped && !(exists context :: Decodes(r, limits, Success(context))) ==>
              Decodes(r, limits, Failure(reply)) && reply.outcome == Metrics.InvalidRequest
  {
    if !stopped {
      var decoded := DecodedOnce(r, limits, state, selected, reply);
      if decoded.Failure? { FailureAnswered(r, limits, decoded); }
    }
  }

  /** The decoding behind a reply is the only one the request has. */
  lemma DecodedOnce(r: Request, limits: Limits, state: State, selected: Selected, reply: Reply)
    returns (decoded: Result<EvaluationContext, Reply>)
    requires Replies(false, r, limits, state, selected, reply)
    ensures Decodes(r, limits, decoded) && reply == Evaluate(false, r.key, decoded, state, selected)
    ensures forall other :: Decodes(r, limits, other) ==> other == decoded
  {
    decoded :| Decodes(r, limits, decoded) && reply == Evaluate(false, r.key, decoded, state, selected);
    forall other | Decodes(r, limits, other) ensures other == decoded {
      DecodesOnce(r, limits, other, decoded);
    }
  }

  /** Past the gates a select that expired is answered 503 as a timeout, and one that received a result
      with the mapping of that result. */
  lemma SelectAnswers(stopped: bool, r: Request, limits: Limits, state: State, selected: Selected, reply: Reply)
    requires Replies(stopped, r, limits, state, selected, reply) && PastGates(stopped, r, limits, state)
    ensures selected.Expired? ==>
              reply == Reply(503, FailureBody(r.key, "GENERAL", TimedOut, None), Metrics.Timeout, true)
    ensures selected.Received? ==> reply == MapResult(r.key, selected.result.details, selected.result.err)
  {
    var decoded := DecodedOnce(r, limits, state, selected, reply);
  }

  lemma MappedNeverTimesOut(key: string, details: Details, err: Option<EvalError>)
    ensures MapResult(key, details, err).outcome != Metrics.Timeout
  {}

  /** A request counts as a timeout exactly when it got past the gates and its select expired. */
  lemma TimeoutExactly(stopped: bool, r: Request, limits: Limits, state: State, selected: Selected, reply: Reply)
    requires Replies(stopped, r, limits, state, selected, reply)
    ensures reply.outcome == Metrics.Timeout <==> PastGates(stopped, r, limits, state) && selected.Expired?
  {
    GatesAnswer(stopped, r, limits, state, selected, reply);
    if PastGates(stopped, r, limits, state) {
      SelectAnswers(stopped, r, limits, state, selected, reply);
      if selected.Received? { MappedNeverTimesOut(r.key, selected.result.details, selected.result.err); }
    }
  }

  lemma MappedReports(key: string, details: Details, err: Option<EvalError>)
    ensures var r := MapResult(key, details, err);
            r.outcome == Metrics.Error ==> r.body.FailureBody? && r.body.details.Reported?
  {}

  /** A timeout says that it is one, and an error passes on what was reported. */
  lemma FailureWorded(stopped: bool, r: Request, limits: Limits, state: State, selected: Selected, reply: Reply)
    requires Replies(stopped, r, limits, state, selected, reply)
    ensures reply.outcome == Metrics.Timeout ==> reply.body.FailureBody? && reply.body.details == TimedOut
    ensures reply.outcome == Metrics.Error ==> reply.body.FailureBody? && reply.body.details.Reported?
  {
    GatesAnswer(stopped, r, limits, state, selected, reply);
    if PastGates(stopped, r, limits, state) {
      SelectAnswers(stopped, r, limits, state, selected, reply);
      if selected.Received? { MappedReports(r.key, selected.result.details, selected.result.err); }
    }
  }

  // ----- what a request leaves in the registry

  predicate Failing(o: Metrics.Outcome) { o == Metrics.Error || o == Metrics.Timeout }

  function FailureText(d: Detail): string {
    match d
    case TimedOut => "evaluation timed out"
    case Reported(message) => message
    case _ => ""
  }

  function ErrorText(key: string, body: Body): string {
    key + ": " + if body.FailureBody? then FailureText(body.details) else ""
  }

  /** The registry after the handler counted its reply and recorded a failure. */
  function Recorded(m: Metrics.Registry, key: string, reply: Reply, seconds: real): Metrics.Registry
    requires Metrics.Shaped(m)
  {
    var counted := Metrics.Observe(m, Metrics.Observation(reply.outcome, seconds));
    if Failing(reply.outcome) then Metrics.Fail(counted, ErrorText(key, reply.body)) else counted
  }

  /** One more request of the reply's outcome is counted and of no other; a timeout or an error becomes the
      last error, with the flag's key and what happened, and anything else leaves it. */
  lemma RecordedTells(m: Metrics.Registry, key: string, reply: Reply, seconds: real)
    requires Metrics.Shaped(m)
    ensures var t := Recorded(m, key, reply, seconds);
            && (forall o :: Metrics.Counter(t.evaluations, o)
                  == if o == reply.outcome then Metrics.Wrap(Metrics.Counter(m.evaluations, o) + 1)
                     else Metrics.Counter(m.evaluations, o))
            && (reply.outcome == Metrics.Timeout || reply.outcome == Metrics.Error ==> t.lastError.Some?)
            && (reply.outcome != Metrics.Timeout && reply.outcome != Metrics.Error ==> t.lastError == m.lastError)
            && t.providerAt == m.providerAt
  {}

  lemma ErrorTextTells(m: Metrics.Registry, key: string, reply: Reply, seconds: real, message: string)
    requires Metrics.Shaped(m) && reply.body.FailureBody?
    ensures var t := Recorded(m, key, reply, seconds);
            && (reply.outcome == Metrics.Timeout && reply.body.details == TimedOut ==>
                  t.lastError == Some(key + ": " + "evaluation timed out"))
            && (reply.outcome == Metrics.Error && reply.body.details == Reported(message) ==>
                  t.lastError == Some(key + ": " + message))
  {}

  /** What a timed-out request leaves behind. */
  predicate TimeoutCounted(m: Metrics.Registry, t: Metrics.Registry, key: string) {
    && Metrics.Counter(t.evaluations, Metrics.Timeout)
       == Metrics.Wrap(Metrics.Counter(m.evaluations, Metrics.Timeout) + 1)
    && t.lastError == Some(key + ": " + "evaluation timed out")
  }

  lemma TimedOutTells(m: Metrics.Registry, stopped: bool, r: Request, limits: Limits, state: State,
    selected: Selected, reply: Reply, seconds: real)
    requires Metrics.Shaped(m) && Replies(stopped, r, limits, state, selected, reply)
    ensures PastGates(stopped, r, limits, state) && selected.Expired? ==>
              TimeoutCounted(m, Recorded(m, r.key, reply, seconds), r.key)
  {
    if PastGates(stopped, r, limits, state) && selected.Expired? {
      SelectAnswers(stopped, r, limits, state, selected, reply);
      RecordedTells(m, r.key, reply, seconds);
      ErrorTextTells(m, r.key, reply, seconds, "");
    }
  }

  class Handler {
    const limits: Limits
    const bridge: Bridge
    const metrics: Registrar
    var stopped: bool

    constructor (limits: Limits, bridge: Bridge, metrics: Registrar)
      ensures this.limits == limits && this.bridge == bridge && this.metrics == metrics && !stopped
    {
      this.limits, this.bridge, this.metrics := limits, bridge, metrics;
      stopped := false;
    }

    method StopServing()
      modifies this`stopped
      ensures stopped
    {
      stopped := true;
    }

    /** Evaluates one request whose select comes back with `selected`. */
    method EvaluateFlag(r: Request, selected: Selected) returns (reply: Reply)
      ensures Replies(stopped, r, limits, bridge.state, selected, reply)
    {
      if stopped {
        reply := Stopped(r.key);
        assert reply == Evaluate(stopped, r.key, Failure(reply), bridge.state, selected);
        return;
      }
      var decoded := DecodeContext(r, limits);
      if decoded.Failure? {
        reply := decoded.error;
      } else if bridge.state == Starting {
        reply := Unready(r.key);
      } else {
        reply := Answer(r.key, selected);
      }
      assert reply == Evaluate(stopped, r.key, decoded, bridge.state, selected);
    }

    /** Counts a reply that has been written, and records its failure if it is one. */
    method Record(key: string, reply: Reply, seconds: real)
      requires metrics.Valid()
      requires Failing(reply.outcome) ==> reply.body.FailureBody?
      modifies metrics.Repr
      ensures metrics.Valid() && fresh(metrics.Repr - old(metrics.Repr))
      ensures metrics.View() == Recorded(old(metrics.View()), key, reply, seconds)
    {
      metrics.ObserveEvaluation(reply.outcome, seconds);
      if Failing(reply.outcome) {
        if reply.body.FailureBody? {
          metrics.RecordError(ErrorText(key, reply.body));
        }
      }
    }

    /** One request from arrival to the registry: replied to, counted once, its failure recorded. */
    method HandleEvaluateFlag(r: Request, selected: Selected, seconds: real) returns (reply: Reply)
      requires metrics.Valid() && this !in metrics.Repr && bridge !in metrics.Repr
      modifies metrics.Repr
      ensures metrics.Valid() && fresh(metrics.Repr - old(metrics.Repr))
      ensures Replies(stopped, r, limits, bridge.state, selected, reply)
      ensures Contract(r.key, reply)
      ensures metrics.View() == Recorded(old(metrics.View()), r.key, reply, seconds)
      ensures PastGates(stopped, r, limits, bridge.state) && selected.Expired? ==>
                TimeoutCounted(old(metrics.View()), metrics.View(), r.key)
    {
      reply := EvaluateFlag(r, selected);
      ReplyContract(stopped, r, limits, bridge.state, selected, reply);
      TimedOutTells(metrics.View(), stopped, r, limits, bridge.state, selected, reply, seconds);
      Record(r.key, reply, seconds);
    }
  }
}
