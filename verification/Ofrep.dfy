/** OFREP replies, and the mapping from an OpenFeature evaluation result to one. */
module Ofrep {
  import opened Wrappers
  import Metrics

  // ----- OpenFeature and OFREP vocabulary

  const GENERAL := "GENERAL"
  const PARSE_ERROR := "PARSE_ERROR"
  const INVALID_CONTEXT := "INVALID_CONTEXT"
  const TARGETING_KEY_MISSING := "TARGETING_KEY_MISSING"
  const FLAG_NOT_FOUND := "FLAG_NOT_FOUND"
  const PROVIDER_NOT_READY := "PROVIDER_NOT_READY"
  const PROVIDER_FATAL := "PROVIDER_FATAL"

  const REASONS := ["STATIC", "TARGETING_MATCH", "SPLIT", "DISABLED", "UNKNOWN"]

  /** A flag value; the absence of one is None around it. */
  datatype FlagValue =
    | Truth(b: bool)
    | Text(s: string)
    | Number(x: real)
    | Record(fields: map<string, FlagValue>)
    | List(items: seq<FlagValue>)

  datatype MetaValue = MetaTruth(b: bool) | MetaText(s: string) | MetaNumber(x: real) | MetaOther

  type Metadata = map<string, MetaValue>

  /** Why an attribute of the evaluation context was rejected. */
  datatype Rejection =
    | IsObject | IsArray | NotJson | Unsupported | NotRepresentable | NotAString
    | TooLong(bytes: nat, limit: nat)

  /** The text of an error, by what it says. */
  datatype Detail =
    | EmptyKey
    | KeyNotUtf8
    | BodyTooLarge
    | BodyMalformed(message: string)
    | TooManyProperties(count: nat, limit: nat)
    | BadProperty(name: string, why: Rejection)
    | NoLongerServing
    | NoConfiguration
    | TimedOut
    | Reported(message: string)

  datatype Body =
    | SuccessBody(key: string, reason: string, variant: string, metadata: Option<Metadata>, value: Option<FlagValue>)
    | FailureBody(key: string, errorCode: string, details: Detail, metadata: Option<Metadata>)

  datatype Reply = Reply(status: int, body: Body, outcome: Metrics.Outcome, retryAfter: bool)

  /** What the OpenFeature client returns; an empty error code means none. */
  datatype Details = Details(
    value: Option<FlagValue>,
    variant: string,
    reason: string,
    errorCode: string,
    errorMessage: string,
    metadata: Metadata)

  datatype EvalError = EvalError(providerNotReady: bool, providerFatal: bool, message: string)

  // ----- the mapping

  predicate Allowed(v: MetaValue) { !v.MetaOther? }

  /** The metadata the reply carries: exactly the allowed entries, and none rather than empty. */
  function Kept(metadata: Metadata): Option<Metadata> {
    var out := map name | name in metadata && Allowed(metadata[name]) :: metadata[name];
    if out == map[] then None else Some(out)
  }

  lemma NothingKept(metadata: Metadata)
    requires forall name :: name in metadata ==> !Allowed(metadata[name])
    ensures Kept(metadata) == None
  {
    assert (map name | name in metadata && Allowed(metadata[name]) :: metadata[name]) == map[];
  }

  /** The loop that builds the metadata, in any iteration order. */
  method OfrepMetadata(metadata: Metadata) returns (out: Option<Metadata>)
    ensures out == Kept(metadata)
  {
    if metadata == map[] {
      NothingKept(metadata);
      return None;
    }
    var kept: Metadata := map[];
    var rest := metadata.Keys;
    while rest != {}
      invariant rest <= metadata.Keys
      invariant kept == map name | name in metadata && name !in rest && Allowed(metadata[name]) :: metadata[name]
      decreases rest
    {
      var name :| name in rest;
      if Allowed(metadata[name]) {
        kept := kept[name := metadata[name]];
      }
      rest := rest - {name};
    }
    assert kept == map name | name in metadata && Allowed(metadata[name]) :: metadata[name];
    out := if kept == map[] then None else Some(kept);
  }

  function MapReason(reason: string): (string, bool) {
    if reason == "TARGETING_MATCH" then ("TARGETING_MATCH", true)
    else if reason == "SPLIT" then ("SPLIT", true)
    else if reason == "STATIC" then ("STATIC", true)
    else if reason == "DISABLED" then ("DISABLED", false)
    else if reason == "DEFAULT" then ("UNKNOWN", false)
    else ("UNKNOWN", true)
  }

  function MapShortCircuit(e: EvalError): (int, string, Metrics.Outcome) {
    if e.providerNotReady then (503, PROVIDER_NOT_READY, Metrics.NotReady)
    else if e.providerFatal then (500, PROVIDER_FATAL, Metrics.Error)
    else (500, GENERAL, Metrics.Error)
  }

  function MapErrorCode(code: string): (int, string, Metrics.Outcome) {
    if code == FLAG_NOT_FOUND then (404, FLAG_NOT_FOUND, Metrics.FlagNotFound)
    else if code == TARGETING_KEY_MISSING then (400, TARGETING_KEY_MISSING, Metrics.InvalidRequest)
    else if code == INVALID_CONTEXT then (400, INVALID_CONTEXT, Metrics.InvalidRequest)
    else if code == PARSE_ERROR then (400, PARSE_ERROR, Metrics.InvalidRequest)
    else if code == PROVIDER_NOT_READY then (503, PROVIDER_NOT_READY, Metrics.NotReady)
    else (500, code, Metrics.Error)
  }

  /** The reply to an evaluation that returned; every 503 carries Retry-After. */
  function MapResult(key: string, details: Details, err: Option<EvalError>): Reply {
    var metadata := Kept(details.metadata);
    if details.errorCode == "" && err.Some? then
      var (status, code, outcome) := MapShortCircuit(err.value);
      Reply(status, FailureBody(key, code, Reported(err.value.message), metadata), outcome, status == 503)
    else if details.errorCode != "" then
      var message := if details.errorMessage == "" && err.Some? then err.value.message else details.errorMessage;
      var (status, code, outcome) := MapErrorCode(details.errorCode);
      Reply(status, FailureBody(key, code, Reported(message), metadata), outcome, status == 503)
    else
      var (mapped, bearing) := MapReason(details.reason);
      var hasValue := bearing && details.value.Some?;
      var reason := if details.value.None? && mapped != "DISABLED" then "UNKNOWN" else mapped;
      if hasValue then
        Reply(200, SuccessBody(key, reason, details.variant, metadata, details.value), Metrics.Value, false)
      else
        Reply(200, SuccessBody(key, reason, "", metadata, None), Metrics.CodeDefault, false)
  }

  // ----- what every reply promises

  predicate MetadataAllowed(metadata: Option<Metadata>) {
    metadata.Some? ==>
      metadata.value != map[] && forall name :: name in metadata.value ==> Allowed(metadata.value[name])
  }

  /** The status each outcome is answered with. */
  predicate StatusFollows(status: int, outcome: Metrics.Outcome) {
    match outcome
    case Value => status == 200
    case CodeDefault => status == 200
    case FlagNotFound => status == 404
    case InvalidRequest => status == 400 || status == 413
    case NotReady => status == 503
    case Timeout => status == 503
    case Error => status == 500
  }

  /** The response contract of the single-flag endpoint. */
  predicate Contract(key: string, r: Reply) {
    && StatusFollows(r.status, r.outcome)
    && (r.retryAfter <==> r.status == 503)
    && r.body.key == key
    && (r.body.SuccessBody? <==> r.status == 200)
    && MetadataAllowed(r.body.metadata)
    && match r.body
       case SuccessBody(_, reason, variant, _, value) =>
         && (value.Some? <==> r.outcome == Metrics.Value)
         && (variant != "" ==> value.Some?)
         && reason in REASONS
         && (value.None? ==> reason == "DISABLED" || reason == "UNKNOWN")
         && (reason == "DISABLED" ==> value.None?)
       case FailureBody(_, code, _, _) =>
         && (r.status == 400 ==> code in [PARSE_ERROR, TARGETING_KEY_MISSING, INVALID_CONTEXT, GENERAL])
         && (r.status == 413 ==> code == PARSE_ERROR)
         && (r.status == 404 ==> code == FLAG_NOT_FOUND)
         && (r.status == 503 ==> code == GENERAL || code == PROVIDER_NOT_READY)
  }

  lemma KeptIsAllowed(metadata: Metadata)
    ensures MetadataAllowed(Kept(metadata))
  {}

  lemma MappedContract(key: string, details: Details, err: Option<EvalError>)
    ensures Contract(key, MapResult(key, details, err))
  {
    KeptIsAllowed(details.metadata);
  }

  // ----- the schema of the vendored OFREP 0.3.0 document

  predicate Integral(x: real) { x.Floor as real == x }

  /** How many alternatives of the evaluationSuccess oneOf the value property satisfies. With
      `repaired`, codeDefaultFlag also demands that there is no value. */
  function Alternatives(value: Option<FlagValue>, repaired: bool): nat {
    (if value.Some? && value.value.Truth? then 1 else 0)
    + (if value.Some? && value.value.Text? then 1 else 0)
    + (if value.Some? && value.value.Number? && Integral(value.value.x) then 1 else 0)
    + (if value.Some? && value.value.Number? then 1 else 0)
    + (if value.Some? && value.value.Record? then 1 else 0)
    + (if repaired && value.Some? then 0 else 1)
  }

  predicate EvaluationSuccess(body: Body, repaired: bool) {
    && body.SuccessBody?
    && body.reason in REASONS
    && MetadataAllowed(body.metadata)
    && Alternatives(body.value, repaired) == 1
  }

  /** The provider's answer is turned into a value: it gave one, and neither DISABLED nor DEFAULT. */
  predicate Valued(details: Details) {
    details.value.Some? && details.reason != "DISABLED" && details.reason != "DEFAULT"
  }

  /** As published, codeDefaultFlag matches every reply, so the reply to an evaluation is an
      evaluationSuccess exactly when the evaluation did not fail and either yields no value or yields a
      list, which nothing else matches. */
  lemma PublishedSchema(key: string, details: Details, err: Option<EvalError>)
    ensures EvaluationSuccess(MapResult(key, details, err).body, false)
       <==> details.errorCode == "" && err.None? && (Valued(details) ==> details.value.value.List?)
  {
    MappedContract(key, details, err);
    if details.errorCode == "" && err.None? { ValueWithheld(key, details); }
  }

  /** With the repair the repository's contract test applies, it is one exactly when the evaluation did
      not fail and yields no value, or one that is neither a list nor an integral number. */
  lemma RepairedSchema(key: string, details: Details, err: Option<EvalError>)
    ensures EvaluationSuccess(MapResult(key, details, err).body, true)
       <==> && details.errorCode == "" && err.None?
            && (Valued(details) ==>
                  !details.value.value.List? && !(details.value.value.Number? && Integral(details.value.value.x)))
  {
    MappedContract(key, details, err);
    if details.errorCode == "" && err.None? { ValueWithheld(key, details); }
  }

  /** A boolean flag is answered with a reply the published schema rejects. */
  lemma BooleanFlagRejected()
    ensures var r := MapResult("beta", Details(Some(Truth(true)), "on", "STATIC", "", "", map[]), None);
            Contract("beta", r) && r.status == 200 && !EvaluationSuccess(r.body, false)
  {
    var details := Details(Some(Truth(true)), "on", "STATIC", "", "", map[]);
    MappedContract("beta", details, None);
    PublishedSchema("beta", details, None);
  }

  /** An integer flag is answered with a reply the repaired schema rejects, since an integral
      number is both an integerFlag and a floatFlag. */
  lemma IntegerFlagRejected()
    ensures var r := MapResult("limit", Details(Some(Number(3.0)), "three", "STATIC", "", "", map[]), None);
            Contract("limit", r) && r.status == 200 && !EvaluationSuccess(r.body, true)
  {
    MappedContract("limit", Details(Some(Number(3.0)), "three", "STATIC", "", "", map[]), None);
    assert Integral(3.0);
  }

  /** A number is integral when it is some integer. */
  lemma IntegralMeans(x: real, n: int)
    ensures x == n as real ==> Integral(x)
    ensures Integral(x) ==> x == x.Floor as real
    ensures !Integral(n as real + 0.5)
  {}

  /** Of the metadata exactly the allowed entries are kept, with their values. */
  lemma KeptExactly(metadata: Metadata, name: string)
    ensures Kept(metadata).Some? && name in Kept(metadata).value
       <==> name in metadata
            && (metadata[name].MetaTruth? || metadata[name].MetaText? || metadata[name].MetaNumber?)
    ensures Kept(metadata).Some? && name in Kept(metadata).value ==> Kept(metadata).value[name] == metadata[name]
  {
    if name in metadata && Allowed(metadata[name]) {
      assert name in map k | k in metadata && Allowed(metadata[k]) :: metadata[k];
    }
  }

  /** A value is withheld exactly when the provider gave none or gave DISABLED or DEFAULT as its
      reason; otherwise it arrives unchanged. A reason of the protocol's vocabulary arrives unchanged
      with a value, and without one only DISABLED does; any other becomes UNKNOWN. */
  lemma ValueWithheld(key: string, details: Details)
    requires details.errorCode == ""
    ensures var r := MapResult(key, details, None);
            && r.status == 200 && !r.retryAfter
            && r.body.SuccessBody? && r.body.key == key && r.body.metadata == Kept(details.metadata)
            && (r.body.value.Some? <==> Valued(details))
            && r.outcome == (if Valued(details) then Metrics.Value else Metrics.CodeDefault)
            && (if Valued(details) then r.body.value == details.value && r.body.variant == details.variant
                else r.body.variant == "")
            && r.body.reason ==
               if details.reason == "DISABLED" then "DISABLED"
               else if Valued(details) && details.reason in ["STATIC", "TARGETING_MATCH", "SPLIT"] then details.reason
               else "UNKNOWN"
  {}

  /** A failure keeps the error code the evaluation reported, whatever it is; status and outcome follow
      that code alone, and the evaluation's own message is preferred to the error's. */
  lemma FailureTold(key: string, details: Details, err: Option<EvalError>)
    requires details.errorCode != ""
    ensures var r, code := MapResult(key, details, err), details.errorCode;
            && r.body.FailureBody? && r.body.key == key && r.body.errorCode == code
            && r.body.metadata == Kept(details.metadata)
            && (if code == "FLAG_NOT_FOUND" then r.status == 404 && r.outcome == Metrics.FlagNotFound
                else if code in ["TARGETING_KEY_MISSING", "INVALID_CONTEXT", "PARSE_ERROR"] then
                  r.status == 400 && r.outcome == Metrics.InvalidRequest
                else if code == "PROVIDER_NOT_READY" then r.status == 503 && r.outcome == Metrics.NotReady
                else r.status == 500 && r.outcome == Metrics.Error)
            && (r.retryAfter <==> code == "PROVIDER_NOT_READY")
            && (details.errorMessage != "" || err.None? ==> r.body.details == Reported(details.errorMessage))
            && (details.errorMessage == "" && err.Some? ==> r.body.details == Reported(err.value.message))
  {}

  /** An error without a code is told apart by what it wraps. */
  lemma ShortCircuitTold(key: string, details: Details, err: EvalError)
    requires details.errorCode == ""
    ensures var r := MapResult(key, details, Some(err));
            && r.body.FailureBody? && r.body.key == key && r.body.details == Reported(err.message)
            && r.body.metadata == Kept(details.metadata)
            && (if err.providerNotReady then
                  r.status == 503 && r.outcome == Metrics.NotReady && r.body.errorCode == "PROVIDER_NOT_READY"
                else if err.providerFatal then
                  r.status == 500 && r.outcome == Metrics.Error && r.body.errorCode == "PROVIDER_FATAL"
                else r.status == 500 && r.outcome == Metrics.Error && r.body.errorCode == "GENERAL")
            && (r.retryAfter <==> err.providerNotReady)
  {}
}
