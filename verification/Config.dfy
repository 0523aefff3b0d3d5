/** Loading the configuration: every problem is reported, and what loads meets the bounds the
    lifecycle relies on. Durations are in nanoseconds. */
module Config {
  import opened Wrappers
  import opened Text

  const SERVICE := "DD_SERVICE"
  const ENV := "DD_ENV"
  const VERSION := "DD_VERSION"
  const PROVIDER_ENABLED := "DD_EXPERIMENTAL_FLAGGING_PROVIDER_ENABLED"
  const TRACE_ENABLED := "DD_TRACE_ENABLED"
  const TRACE_AGENT_URL := "DD_TRACE_AGENT_URL"
  const AGENT_HOST := "DD_AGENT_HOST"
  const TRACE_AGENT_PORT := "DD_TRACE_AGENT_PORT"
  const LISTEN_ADDR := "DDFLAGD_LISTEN_ADDR"
  const ADMIN_ADDR := "DDFLAGD_ADMIN_ADDR"
  const PPROF_ENABLED := "DDFLAGD_PPROF_ENABLED"
  const API_KEY := "DDFLAGD_API_KEY"

  const DEFAULT_LISTEN_ADDR := "127.0.0.1:8016"
  const DEFAULT_ADMIN_ADDR := "0.0.0.0:8017"

  datatype Duration = DrainDelay | InitTimeout | ShutdownTimeout | HandlerTimeout

  function Variable(d: Duration): string {
    match d
    case DrainDelay => "DDFLAGD_DRAIN_DELAY"
    case InitTimeout => "DDFLAGD_INIT_TIMEOUT"
    case ShutdownTimeout => "DDFLAGD_SHUTDOWN_TIMEOUT"
    case HandlerTimeout => "DDFLAGD_HANDLER_TIMEOUT"
  }

  /** The duration settings in the order they are read, with their defaults. */
  const DURATIONS: seq<(Duration, int)> := [
    (DrainDelay, 5_000_000_000),
    (InitTimeout, 30_000_000_000),
    (ShutdownTimeout, 10_000_000_000),
    (HandlerTimeout, 200_000_000)]

  /** The process environment, and how a duration text reads. */
  datatype Environment = Environment(vars: map<string, string>, duration: string -> Option<int>)

  datatype Settings = Settings(
    service: string,
    env: string,
    version: string,
    agentUrl: string,
    listenAddr: string,
    adminAddr: string,
    pprofEnabled: bool,
    apiKey: string,
    drainDelay: int,
    initTimeout: int,
    shutdownTimeout: int,
    handlerTimeout: int)

  datatype Problem =
    | NotADuration(setting: Duration)
    | ServiceMissing
    | ProviderNotEnabled
    | TracingDisabled
    | EmptyAddress(variable: string)
    | SameAddress
    | NegativeDrainDelay
    | NotPositive(setting: Duration)

  function Getenv(e: Environment, name: string): string {
    if name in e.vars then e.vars[name] else ""
  }

  function StringEnv(e: Environment, name: string, default: string): string {
    if Getenv(e, name) != "" then Getenv(e, name) else default
  }

  /** strconv.ParseBool. */
  function ParseBool(s: string): Option<bool> {
    if s in ["1", "t", "T", "TRUE", "true", "True"] then Some(true)
    else if s in ["0", "f", "F", "FALSE", "false", "False"] then Some(false)
    else None
  }

  function BoolOr(s: string, default: bool): bool {
    match ParseBool(TrimSpace(s))
    case Some(b) => b
    case None => default
  }

  function BoolEnv(e: Environment, name: string, default: bool): bool {
    if name in e.vars then BoolOr(e.vars[name], default) else default
  }

  /** The duration a setting has; None when its text is not a duration. */
  function DurationEnv(e: Environment, d: Duration, default: int): Option<int> {
    if Getenv(e, Variable(d)) == "" then Some(default) else e.duration(TrimSpace(Getenv(e, Variable(d))))
  }

  function AgentUrl(e: Environment): string {
    var host, port := Getenv(e, AGENT_HOST), Getenv(e, TRACE_AGENT_PORT);
    if Getenv(e, TRACE_AGENT_URL) != "" then Getenv(e, TRACE_AGENT_URL)
    else if host == "" && port == "" then ""
    else "http://" + (if host == "" then "localhost" else host) + ":" + (if port == "" then "8126" else port)
  }

  // ----- what an environment says

  /** The setting is present and not empty. */
  predicate Given(e: Environment, name: string) { name in e.vars && e.vars[name] != "" }

  function TextOf(e: Environment, name: string, default: string): string {
    if Given(e, name) then e.vars[name] else default
  }

  /** The setting can be read as a duration, if it is given. */
  predicate Readable(e: Environment, name: string) {
    Given(e, name) ==> e.duration(TrimSpace(e.vars[name])).Some?
  }

  function DurationOf(e: Environment, name: string, default: int): int {
    if Given(e, name) && Readable(e, name) then e.duration(TrimSpace(e.vars[name])).value else default
  }

  predicate SaysTrue(e: Environment, name: string) {
    name in e.vars && TrimSpace(e.vars[name]) in {"1", "t", "T", "true", "TRUE", "True"}
  }

  predicate SaysFalse(e: Environment, name: string) {
    name in e.vars && TrimSpace(e.vars[name]) in {"0", "f", "F", "false", "FALSE", "False"}
  }

  function AgentOf(e: Environment): string {
    if Given(e, "DD_TRACE_AGENT_URL") then e.vars["DD_TRACE_AGENT_URL"]
    else if !Given(e, "DD_AGENT_HOST") && !Given(e, "DD_TRACE_AGENT_PORT") then ""
    else "http://" + TextOf(e, "DD_AGENT_HOST", "localhost") + ":" + TextOf(e, "DD_TRACE_AGENT_PORT", "8126")
  }

  /** The configuration an environment describes: every setting by its name, with its default. Durations
      are in nanoseconds. */
  function Described(e: Environment): Settings {
    Settings(
      TextOf(e, "DD_SERVICE", ""),
      TextOf(e, "DD_ENV", ""),
      TextOf(e, "DD_VERSION", ""),
      AgentOf(e),
      TextOf(e, "DDFLAGD_LISTEN_ADDR", "127.0.0.1:8016"),
      TextOf(e, "DDFLAGD_ADMIN_ADDR", "0.0.0.0:8017"),
      SaysTrue(e, "DDFLAGD_PPROF_ENABLED"),
      TextOf(e, "DDFLAGD_API_KEY", ""),
      DurationOf(e, "DDFLAGD_DRAIN_DELAY", 5_000_000_000),
      DurationOf(e, "DDFLAGD_INIT_TIMEOUT", 30_000_000_000),
      DurationOf(e, "DDFLAGD_SHUTDOWN_TIMEOUT", 10_000_000_000),
      DurationOf(e, "DDFLAGD_HANDLER_TIMEOUT", 200_000_000))
  }

  /** Every duration setting that is given reads as one. */
  predicate AllReadable(e: Environment) {
    && Readable(e, "DDFLAGD_DRAIN_DELAY") && Readable(e, "DDFLAGD_INIT_TIMEOUT")
    && Readable(e, "DDFLAGD_SHUTDOWN_TIMEOUT") && Readable(e, "DDFLAGD_HANDLER_TIMEOUT")
  }

  /** The provider is switched on and the tracer not switched off. */
  predicate Switched(e: Environment) {
    SaysTrue(e, "DD_EXPERIMENTAL_FLAGGING_PROVIDER_ENABLED") && !SaysFalse(e, "DD_TRACE_ENABLED")
  }

  lemma BoolRead(e: Environment, name: string)
    ensures BoolEnv(e, name, false) <==> SaysTrue(e, name)
    ensures BoolEnv(e, name, true) <==> !SaysFalse(e, name)
  {}

  // ----- what loading must report

  /** The value in effect: the setting's own, or the default when it cannot be read. */
  function Effective(e: Environment, i: nat): int
    requires i < |DURATIONS|
  {
    var d := DurationEnv(e, DURATIONS[i].0, DURATIONS[i].1);
    if d.Some? then d.value else DURATIONS[i].1
  }

  function Loaded(e: Environment): Settings {
    Settings(
      Getenv(e, SERVICE),
      Getenv(e, ENV),
      Getenv(e, VERSION),
      AgentUrl(e),
      StringEnv(e, LISTEN_ADDR, DEFAULT_LISTEN_ADDR),
      StringEnv(e, ADMIN_ADDR, DEFAULT_ADMIN_ADDR),
      BoolEnv(e, PPROF_ENABLED, false),
      Getenv(e, API_KEY),
      Effective(e, 0), Effective(e, 1), Effective(e, 2), Effective(e, 3))
  }

  /** The problems so far, and one more when its condition holds. */
  function Add(problems: seq<Problem>, condition: bool, p: Problem): seq<Problem> {
    if condition then problems + [p] else problems
  }

  function Unreadable(e: Environment, n: nat): seq<Problem>
    requires n <= |DURATIONS|
  {
    if n == 0 then []
    else
      var (setting, default) := DURATIONS[n - 1];
      Add(Unreadable(e, n - 1), DurationEnv(e, setting, default).None?, NotADuration(setting))
  }

  /** The checks of Validate, in order. */
  function Invalid(e: Environment, c: Settings): seq<Problem> {
    Nonpositive(Misconfigured(e, c), Timeouts(c), |Timeouts(c)|)
  }

  function Unsuitable(e: Environment, c: Settings): seq<Problem> {
    Add(Add(Add([],
      c.service == "", ServiceMissing),
      !BoolEnv(e, PROVIDER_ENABLED, false), ProviderNotEnabled),
      TRACE_ENABLED in e.vars && !BoolOr(e.vars[TRACE_ENABLED], true), TracingDisabled)
  }

  function Misconfigured(e: Environment, c: Settings): seq<Problem> {
    Add(Add(Add(Add(Unsuitable(e, c),
      c.listenAddr == "", EmptyAddress(LISTEN_ADDR)),
      c.adminAddr == "", EmptyAddress(ADMIN_ADDR)),
      c.listenAddr == c.adminAddr, SameAddress),
      c.drainDelay < 0, NegativeDrainDelay)
  }

  function Timeouts(c: Settings): seq<(Duration, int)> {
    [(InitTimeout, c.initTimeout), (ShutdownTimeout, c.shutdownTimeout), (HandlerTimeout, c.handlerTimeout)]
  }

  function Nonpositive(problems: seq<Problem>, timeouts: seq<(Duration, int)>, n: nat): seq<Problem>
    requires n <= |timeouts|
  {
    if n == 0 then problems
    else Add(Nonpositive(problems, timeouts, n - 1), timeouts[n - 1].1 <= 0, NotPositive(timeouts[n - 1].0))
  }

  /** What the lifecycle assumes of its configuration. */
  predicate Bounded(c: Settings) {
    && c.service != "" && c.listenAddr != "" && c.adminAddr != "" && c.listenAddr != c.adminAddr
    && c.drainDelay >= 0 && c.initTimeout > 0 && c.shutdownTimeout > 0 && c.handlerTimeout > 0
  }

  method Validate(e: Environment, c: Settings) returns (problems: seq<Problem>)
    ensures problems == Invalid(e, c)
    ensures problems == []
       <==> && Bounded(c)
            && Switched(e)
  {
    ValidExactly(e, c);
    problems := [];
    if c.service == "" { problems := problems + [ServiceMissing]; }
    if !BoolEnv(e, PROVIDER_ENABLED, false) { problems := problems + [ProviderNotEnabled]; }
    if TRACE_ENABLED in e.vars && !BoolOr(e.vars[TRACE_ENABLED], true) { problems := problems + [TracingDisabled]; }
    if c.listenAddr == "" { problems := problems + [EmptyAddress(LISTEN_ADDR)]; }
    if c.adminAddr == "" { problems := problems + [EmptyAddress(ADMIN_ADDR)]; }
    if c.listenAddr == c.adminAddr { problems := problems + [SameAddress]; }
    if c.drainDelay < 0 { problems := problems + [NegativeDrainDelay]; }
    for i := 0 to |Timeouts(c)|
      invariant problems == Nonpositive(Misconfigured(e, c), Timeouts(c), i)
    {
      if Timeouts(c)[i].1 <= 0 { problems := problems + [NotPositive(Timeouts(c)[i].0)]; }
    }
  }

  method LoadConfig(e: Environment) returns (r: Result<Settings, seq<Problem>>)
    ensures var problems := Unreadable(e, |DURATIONS|) + Invalid(e, Loaded(e));
            r == if problems == [] then Success(Loaded(e)) else Failure(problems)
    ensures r.Success? <==> Switched(e) && AllReadable(e) && Bounded(Described(e))
    ensures r.Success? ==> r.value == Described(e)
    ensures r.Failure? ==> forall p :: p in r.error <==> Applies(e, p)
  {
    LoadsExactly(e);
    LoadedAsDescribed(e);
    ReportsExactly(e);
    var values := seq(|DURATIONS|, i requires 0 <= i < |DURATIONS| => DURATIONS[i].1);
    var problems := [];
    for i := 0 to |DURATIONS|
      invariant |values| == |DURATIONS|
      invariant forall k :: 0 <= k < |DURATIONS| ==> values[k] == if k < i then Effective(e, k) else DURATIONS[k].1
      invariant problems == Unreadable(e, i)
    {
      var d := DurationEnv(e, DURATIONS[i].0, values[i]);
      if d.None? {
        problems := problems + [NotADuration(DURATIONS[i].0)];
      } else {
        values := values[i := d.value];
      }
    }
    var c := Settings(
      Getenv(e, SERVICE), Getenv(e, ENV), Getenv(e, VERSION), AgentUrl(e),
      StringEnv(e, LISTEN_ADDR, DEFAULT_LISTEN_ADDR), StringEnv(e, ADMIN_ADDR, DEFAULT_ADMIN_ADDR),
      BoolEnv(e, PPROF_ENABLED, false), Getenv(e, API_KEY),
      values[0], values[1], values[2], values[3]);
    var invalid := Validate(e, c);
    problems := problems + invalid;
    r := if problems == [] then Success(c) else Failure(problems);
  }

  lemma DurationRead(e: Environment, i: nat)
    requires i < |DURATIONS|
    ensures Effective(e, i) == DurationOf(e, Variable(DURATIONS[i].0), DURATIONS[i].1)
    ensures DurationEnv(e, DURATIONS[i].0, DURATIONS[i].1).Some? <==> Readable(e, Variable(DURATIONS[i].0))
  {}

  lemma DurationsAsDescribed(e: Environment)
    ensures Effective(e, 0) == Described(e).drainDelay && Effective(e, 1) == Described(e).initTimeout
    ensures Effective(e, 2) == Described(e).shutdownTimeout && Effective(e, 3) == Described(e).handlerTimeout
  {
    DurationRead(e, 0);
    DurationRead(e, 1);
    DurationRead(e, 2);
    DurationRead(e, 3);
  }

  lemma AgentAsDescribed(e: Environment)
    ensures AgentUrl(e) == AgentOf(e)
  {}

  /** What is loaded is what the environment describes. */
  lemma LoadedAsDescribed(e: Environment)
    ensures Loaded(e) == Described(e)
  {
    DurationsAsDescribed(e);
    AgentAsDescribed(e);
    BoolRead(e, PPROF_ENABLED);
  }

  /** The configuration loads exactly when the provider is enabled, tracing is not disabled, every
      duration reads, and what it reads to meets the lifecycle's bounds. */
  lemma LoadsExactly(e: Environment)
    ensures Unreadable(e, |DURATIONS|) + Invalid(e, Loaded(e)) == []
       <==> Switched(e) && AllReadable(e) && Bounded(Described(e))
  {
    ReadableExactly(e, |DURATIONS|);
    ValidExactly(e, Loaded(e));
    LoadedAsDescribed(e);
    AllDurationsRead(e);
    BoolRead(e, PROVIDER_ENABLED);
    BoolRead(e, TRACE_ENABLED);
  }

  lemma AllDurationsRead(e: Environment)
    ensures (forall i :: 0 <= i < |DURATIONS| ==> DurationEnv(e, DURATIONS[i].0, DURATIONS[i].1).Some?)
       <==> AllReadable(e)
  {
    forall i | 0 <= i < |DURATIONS|
      ensures DurationEnv(e, DURATIONS[i].0, DURATIONS[i].1).Some? <==> Readable(e, Variable(DURATIONS[i].0))
    {
      DurationRead(e, i);
    }
    assert DURATIONS[0].0 == DrainDelay && DURATIONS[1].0 == InitTimeout;
    assert DURATIONS[2].0 == ShutdownTimeout && DURATIONS[3].0 == HandlerTimeout;
  }

  lemma {:induction false} ReadableExactly(e: Environment, n: nat)
    requires n <= |DURATIONS|
    ensures Unreadable(e, n) == [] <==> forall i :: 0 <= i < n ==> DurationEnv(e, DURATIONS[i].0, DURATIONS[i].1).Some?
  {
    if n > 0 { ReadableExactly(e, n - 1); }
  }

  lemma ValidExactly(e: Environment, c: Settings)
    ensures Invalid(e, c) == [] <==> Bounded(c) && Switched(e)
  {
    PositiveExactly(Misconfigured(e, c), Timeouts(c), |Timeouts(c)|);
    var t := Timeouts(c);
    assert t[0].1 == c.initTimeout && t[1].1 == c.shutdownTimeout && t[2].1 == c.handlerTimeout;
    BoolRead(e, PROVIDER_ENABLED);
    BoolRead(e, TRACE_ENABLED);
  }

  lemma {:induction false} PositiveExactly(problems: seq<Problem>, timeouts: seq<(Duration, int)>, n: nat)
    requires n <= |timeouts|
    ensures Nonpositive(problems, timeouts, n) == [] <==> problems == [] && forall i :: 0 <= i < n ==> timeouts[i].1 > 0
  {
    if n > 0 { PositiveExactly(problems, timeouts, n - 1); }
  }

  // ----- every problem is reported, and nothing else

  function ValueOf(c: Settings, d: Duration): int {
    match d
    case DrainDelay => c.drainDelay
    case InitTimeout => c.initTimeout
    case ShutdownTimeout => c.shutdownTimeout
    case HandlerTimeout => c.handlerTimeout
  }

  /** The name of a duration setting. */
  function NameOf(d: Duration): string {
    match d
    case DrainDelay => "DDFLAGD_DRAIN_DELAY"
    case InitTimeout => "DDFLAGD_INIT_TIMEOUT"
    case ShutdownTimeout => "DDFLAGD_SHUTDOWN_TIMEOUT"
    case HandlerTimeout => "DDFLAGD_HANDLER_TIMEOUT"
  }

  /** What is wrong with an environment, read off the environment itself. */
  predicate Applies(e: Environment, p: Problem) {
    match p
    case NotADuration(d) => !Readable(e, NameOf(d))
    case ServiceMissing => !Given(e, "DD_SERVICE")
    case ProviderNotEnabled => !SaysTrue(e, "DD_EXPERIMENTAL_FLAGGING_PROVIDER_ENABLED")
    case TracingDisabled => SaysFalse(e, "DD_TRACE_ENABLED")
    case EmptyAddress(_) => false
    case SameAddress => Described(e).listenAddr == Described(e).adminAddr
    case NegativeDrainDelay => Described(e).drainDelay < 0
    case NotPositive(d) => d != DrainDelay && ValueOf(Described(e), d) <= 0
  }

  lemma ReportsExactly(e: Environment)
    ensures forall p :: p in Unreadable(e, |DURATIONS|) + Invalid(e, Loaded(e)) <==> Applies(e, p)
  {
    forall p ensures p in Unreadable(e, |DURATIONS|) + Invalid(e, Loaded(e)) <==> Applies(e, p) {
      EveryProblemReported(e, p);
    }
  }

  /** Loading reports exactly the problems there are; an address is never reported as empty, since an
      empty setting falls back to its default. */
  lemma EveryProblemReported(e: Environment, p: Problem)
    ensures p in Unreadable(e, |DURATIONS|) + Invalid(e, Loaded(e)) <==> Applies(e, p)
  {
    LoadedAsDescribed(e);
    UnreadableMember(e, |DURATIONS|, p);
    NonpositiveMember(Misconfigured(e, Loaded(e)), Timeouts(Loaded(e)), |Timeouts(Loaded(e))|, p);
    UnsuitableMember(e, Loaded(e), p);
    MisconfiguredMember(e, Loaded(e), p);
    match p
    case NotADuration(d) => DurationListed(d);
    case NotPositive(d) => TimeoutListed(Loaded(e), d);
    case _ =>
  }

  lemma DurationListed(d: Duration)
    ensures exists i :: 0 <= i < |DURATIONS| && DURATIONS[i].0 == d
  {
    match d
    case DrainDelay => assert DURATIONS[0].0 == d;
    case InitTimeout => assert DURATIONS[1].0 == d;
    case ShutdownTimeout => assert DURATIONS[2].0 == d;
    case HandlerTimeout => assert DURATIONS[3].0 == d;
  }

  lemma TimeoutListed(c: Settings, d: Duration)
    ensures (exists i :: 0 <= i < |Timeouts(c)| && d == Timeouts(c)[i].0 && Timeouts(c)[i].1 <= 0)
       <==> d != DrainDelay && ValueOf(c, d) <= 0
  {
    var t := Timeouts(c);
    assert t[0] == (InitTimeout, c.initTimeout);
    assert t[1] == (ShutdownTimeout, c.shutdownTimeout);
    assert t[2] == (HandlerTimeout, c.handlerTimeout);
  }

  lemma {:induction false} UnreadableMember(e: Environment, n: nat, p: Problem)
    requires n <= |DURATIONS|
    ensures p in Unreadable(e, n)
       <==> && p.NotADuration? && !Readable(e, NameOf(p.setting))
            && exists i :: 0 <= i < n && DURATIONS[i].0 == p.setting
  {
    if n > 0 { UnreadableMember(e, n - 1, p); }
  }

  lemma {:induction false} NonpositiveMember(problems: seq<Problem>, timeouts: seq<(Duration, int)>, n: nat, p: Problem)
    requires n <= |timeouts|
    ensures p in Nonpositive(problems, timeouts, n)
       <==> || p in problems
            || (p.NotPositive? && exists i :: 0 <= i < n && p.setting == timeouts[i].0 && timeouts[i].1 <= 0)
  {
    if n > 0 { NonpositiveMember(problems, timeouts, n - 1, p); }
  }

  lemma UnsuitableMember(e: Environment, c: Settings, p: Problem)
    ensures p in Unsuitable(e, c)
       <==> || (p.ServiceMissing? && c.service == "")
            || (p.ProviderNotEnabled? && !SaysTrue(e, "DD_EXPERIMENTAL_FLAGGING_PROVIDER_ENABLED"))
            || (p.TracingDisabled? && SaysFalse(e, "DD_TRACE_ENABLED"))
  {
    BoolRead(e, PROVIDER_ENABLED);
    BoolRead(e, TRACE_ENABLED);
  }

  lemma MisconfiguredMember(e: Environment, c: Settings, p: Problem)
    requires c.listenAddr != "" && c.adminAddr != ""
    ensures p in Misconfigured(e, c)
       <==> || p in Unsuitable(e, c)
            || (p.SameAddress? && c.listenAddr == c.adminAddr)
            || (p.NegativeDrainDelay? && c.drainDelay < 0)
  {}

  /** A setting that is not a duration keeps its default, so it is never also reported as out of
      range. */
  lemma ReportedOnce(e: Environment, d: Duration)
    requires Applies(e, NotADuration(d))
    ensures !Applies(e, NotPositive(d)) && (d == DrainDelay ==> !Applies(e, NegativeDrainDelay))
  {
  }
}
