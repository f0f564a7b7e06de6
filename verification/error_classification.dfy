/**
  The classification of a failure, on which the retry loop depends.  An error is
  what the classifier can observe of it: the sentinels it wraps, the JSON-RPC
  code of a wrapped request error, its lower-cased message, and the
  retry-after hint the message carries (0.0 when it carries none).
*/
module ErrorClassification {
  import opened Wrappers
  import opened Strings

  datatype Sentinel = AuthRequired | Cancelled | CapabilityUnavailable | CliNotFound | UnsupportedCliVersion

  datatype Error = Error(wraps: set<Sentinel>, code: Option<int>, lowered: string, hintSeconds: real)

  datatype Class = Unknown | Authentication | RateLimit | Overload | CancelledClass | TransientConnection | Capability
      | Cli | Execution

  datatype SubClass = NoSubClass | PromptTooLong | RateLimitTokens | RateLimitRequests | InvalidSchema | InvalidModel
      | ProviderError | SubprocessDied

  datatype Recovery = NoRecovery | RefreshAuth | RetryWithBackoff | Fallback | Stop

  datatype Classification = Classification(class_: Class, subClass: SubClass, recovery: Recovery, retryable: bool,
      httpStatus: Option<int>)

  const TOO_LONG_WORDS := ["context length", "context window", "context_length_exceeded", "prompt is too long",
                           "maximum context length", "too many tokens", "input is too long", "request too large"]
  const TOKEN_RATE_WORDS := ["tokens per minute", "tpm", "token rate"]
  const REQUEST_RATE_WORDS := ["requests per minute", "rpm", "request rate"]
  const SCHEMA_WORDS := ["invalid params", "expected array", "invalid_request_error", "invalid_schema", "malformed",
                         "schema validation"]
  const MODEL_WORDS := ["model not found", "unknown model", "invalid model", "model does not exist"]
  const PROVIDER_WORDS := ["provider error", "upstream", "bad gateway", "provider_returned_error"]
  const SUBPROCESS_WORDS := ["opencode acp exited", "subprocess", "process failed", "broken pipe"]

  function SubclassFromMessage(lowered: string): SubClass {
    if ContainsAny(lowered, TOO_LONG_WORDS) then PromptTooLong
    else if ContainsAny(lowered, TOKEN_RATE_WORDS) then RateLimitTokens
    else if ContainsAny(lowered, REQUEST_RATE_WORDS) then RateLimitRequests
    else if ContainsAny(lowered, SCHEMA_WORDS) then InvalidSchema
    else if ContainsAny(lowered, MODEL_WORDS) then InvalidModel
    else if ContainsAny(lowered, PROVIDER_WORDS) then ProviderError
    else if ContainsAny(lowered, SUBPROCESS_WORDS) then SubprocessDied
    else NoSubClass
  }

  /** The class a request error's code decides; other codes leave it to the message. */
  function ClassFromCode(code: int): Option<Class> {
    if code == 401 || code == 403 then Some(Authentication)
    else if code == 408 || code == 409 || (500 <= code < 600 && code != 503 && code != 529) then Some(Execution)
    else if code == 429 then Some(RateLimit)
    else if code == 503 || code == 529 then Some(Overload)
    else None
  }

  const CONNECTION_WORDS := ["econnreset", "epipe", "connection reset", "broken pipe", "connection refused",
                             "network is unreachable", "temporarily unavailable", "i/o timeout", "dial tcp"]
  const LIMIT_WORDS := ["rate limit", "429"]
  const OVERLOAD_WORDS := ["overload", "server overloaded", "529"]

  const UNAUTHORIZED_WORDS := ["unauthorized", "api key", "authentication"]

  function ClassFromMessage(lowered: string): Option<Class> {
    if ContainsAny(lowered, CONNECTION_WORDS) then Some(TransientConnection)
    else if ContainsAny(lowered, LIMIT_WORDS) then Some(RateLimit)
    else if ContainsAny(lowered, OVERLOAD_WORDS) then Some(Overload)
    else if ContainsAny(lowered, UNAUTHORIZED_WORDS) then Some(Authentication)
    else None
  }

  function ClassFromSentinel(wraps: set<Sentinel>): Option<Class> {
    if AuthRequired in wraps then Some(Authentication)
    else if Sentinel.Cancelled in wraps then Some(CancelledClass)
    else if CapabilityUnavailable in wraps then Some(Capability)
    else if CliNotFound in wraps || UnsupportedCliVersion in wraps then Some(Cli)
    else None
  }

  function RecoveryForClass(c: Class): Recovery {
    match c
    case Authentication => RefreshAuth
    case RateLimit => RetryWithBackoff
    case Overload => RetryWithBackoff
    case TransientConnection => RetryWithBackoff
    case CancelledClass => Stop
    case Capability => Stop
    case Cli => Stop
    case _ => NoRecovery
  }

  predicate IsRetryableClass(c: Class) {
    c == RateLimit || c == Overload || c == TransientConnection
  }

  function ClassOf(err: Error): Class {
    var fromSentinel := ClassFromSentinel(err.wraps);
    var fromCode := if err.code.Some? then ClassFromCode(err.code.value) else None;
    var fromMessage := ClassFromMessage(err.lowered);
    if fromSentinel.Some? then fromSentinel.value
    else if fromCode.Some? then fromCode.value
    else if fromMessage.Some? then fromMessage.value
    else Execution
  }

  function ClassifyError(err: Option<Error>): Classification {
    match err
    case None => Classification(Unknown, NoSubClass, NoRecovery, false, None)
    case Some(e) =>
      var c, sub := ClassOf(e), SubclassFromMessage(e.lowered);
      Classification(c, sub, RecoveryForClass(c), IsRetryableClass(c) && sub != PromptTooLong,
                     if ClassFromSentinel(e.wraps).Some? then None else e.code)
  }

  /** Retrying is advised only for failures classified to back off, and never when the prompt itself is too long. */
  lemma RetryMeansBackoff(err: Option<Error>)
    ensures ClassifyError(err).retryable <==>
            ClassifyError(err).recovery == RetryWithBackoff && ClassifyError(err).subClass != PromptTooLong
    ensures err.None? <==> ClassifyError(err).class_ == Unknown
  {
  }

  /** Codes that decide the class, whatever the message says. */
  predicate Decides(code: int) {
    code in {401, 403, 408, 409, 429} || 500 <= code < 600
  }

  // ----- what a message says, phrase by phrase

  ghost predicate SaysTooLong(text: string) {
    SaysAny(text, ["context length", "context window", "context_length_exceeded", "prompt is too long",
                   "maximum context length", "too many tokens", "input is too long", "request too large"])
  }

  ghost predicate SaysConnection(text: string) {
    SaysAny(text, ["econnreset", "epipe", "connection reset", "broken pipe", "connection refused",
                   "network is unreachable", "temporarily unavailable", "i/o timeout", "dial tcp"])
  }

  ghost predicate SaysLimit(text: string) {
    SaysAny(text, ["rate limit", "429"])
  }

  ghost predicate SaysOverload(text: string) {
    SaysAny(text, ["overload", "529"])
  }

  ghost predicate SaysUnauthorized(text: string) {
    SaysAny(text, ["unauthorized", "api key", "authentication"])
  }

  lemma TooLongExactly(text: string)
    ensures SubclassFromMessage(text) == PromptTooLong <==> SaysTooLong(text)
  {
    ContainsAnyExactly(text, TOO_LONG_WORDS);
  }

  lemma ConnectionExactly(text: string)
    ensures ClassFromMessage(text) == Some(TransientConnection) <==> SaysConnection(text)
  {
    ContainsAnyExactly(text, CONNECTION_WORDS);
  }

  lemma LimitExactly(text: string)
    ensures ContainsAny(text, LIMIT_WORDS) <==> SaysLimit(text)
  {
    ContainsAnyExactly(text, LIMIT_WORDS);
  }

  lemma LongerPhrase(text: string, head: string, phrase: string, tail: string)
    requires Says(text, head + phrase + tail)
    ensures Says(text, phrase)
  {
    var before: string, after: string :| text == before + (head + phrase + tail) + after;
    assert text == (before + head) + phrase + (tail + after);
  }

  /** "server overloaded" says nothing that "overload" does not. */
  lemma OverloadExactly(text: string)
    ensures ContainsAny(text, OVERLOAD_WORDS) <==> SaysOverload(text)
  {
    ContainsAnyExactly(text, OVERLOAD_WORDS);
    var words := OVERLOAD_WORDS;
    assert words[0] == "overload" && words[1] == "server " + "overload" + "ed" && words[2] == "529";
    if Says(text, words[1]) {
      LongerPhrase(text, "server ", "overload", "ed");
    }
    var short := ["overload", "529"];
    assert SaysAny(text, short) <==> Says(text, short[0]) || Says(text, short[1]);
    assert SaysAny(text, words) <==> Says(text, words[0]) || Says(text, words[1]) || Says(text, words[2]);
  }

  lemma UnauthorizedExactly(text: string)
    ensures ContainsAny(text, UNAUTHORIZED_WORDS) <==> SaysUnauthorized(text)
  {
    ContainsAnyExactly(text, UNAUTHORIZED_WORDS);
  }

  /** What the message decides when neither a sentinel nor a code does: the first of four kinds, if any. */
  lemma MessageDecides(text: string)
    ensures ClassFromMessage(text) ==
            if SaysConnection(text) then Some(TransientConnection)
            else if SaysLimit(text) then Some(RateLimit)
            else if SaysOverload(text) then Some(Overload)
            else if SaysUnauthorized(text) then Some(Authentication)
            else None
  {
    ConnectionExactly(text);
    LimitExactly(text);
    OverloadExactly(text);
    UnauthorizedExactly(text);
  }

  // ----- which failures get which treatment

  lemma SentinelDecides(wraps: set<Sentinel>)
    ensures ClassFromSentinel(wraps).Some? <==> wraps != {}
  {
    if wraps != {} {
      var s :| s in wraps;
      match s
      case AuthRequired =>
      case Cancelled =>
      case CapabilityUnavailable =>
      case CliNotFound =>
      case UnsupportedCliVersion =>
    }
  }

  /** Neither a sentinel nor the code decides the class, so the message does. */
  predicate LeftToMessage(e: Error) {
    e.wraps == {} && !(e.code.Some? && Decides(e.code.value))
  }

  predicate HasCode(e: Error, codes: set<int>) {
    e.wraps == {} && e.code.Some? && e.code.value in codes
  }

  /** Which failures ask for which recovery: everything not named here asks for none. */
  lemma RecoveryExactly(e: Error)
    ensures ClassifyError(Some(e)).recovery == RefreshAuth <==>
            || AuthRequired in e.wraps
            || HasCode(e, {401, 403})
            || (LeftToMessage(e) && SaysUnauthorized(e.lowered) &&
                !SaysConnection(e.lowered) && !SaysLimit(e.lowered) && !SaysOverload(e.lowered))
    ensures ClassifyError(Some(e)).recovery == RetryWithBackoff <==>
            || HasCode(e, {429, 503, 529})
            || (LeftToMessage(e) && (SaysConnection(e.lowered) || SaysLimit(e.lowered) || SaysOverload(e.lowered)))
    ensures ClassifyError(Some(e)).recovery == Stop <==> e.wraps != {} && AuthRequired !in e.wraps
    ensures !ClassifyError(Some(e)).recovery.Fallback?
  {
    SentinelDecides(e.wraps);
    MessageDecides(e.lowered);
  }

  lemma SubclassOfFailure(e: Error)
    ensures ClassifyError(Some(e)).subClass == PromptTooLong <==> SaysTooLong(e.lowered)
  {
    TooLongExactly(e.lowered);
  }

  /**
    A failure is retried exactly when it wraps no sentinel, its message has none of the eight phrases
    for a prompt that is too long, and either it has a limit or overload code or, without a deciding
    code, its message mentions a connection, limit or overload problem.
  */
  lemma RetriedExactly(e: Error)
    ensures ClassifyError(Some(e)).retryable <==>
            && !SaysTooLong(e.lowered)
            && (|| HasCode(e, {429, 503, 529})
                || (LeftToMessage(e) &&
                    (SaysConnection(e.lowered) || SaysLimit(e.lowered) || SaysOverload(e.lowered))))
  {
    RetryMeansBackoff(Some(e));
    RecoveryExactly(e);
    SubclassOfFailure(e);
  }

  /**
    The class of a request error with a deciding code, whatever the message says: 408, 409 and the
    server errors other than overload are failed executions.
  */
  lemma CodeGivesClass(e: Error)
    requires e.wraps == {} && e.code.Some?
    ensures e.code.value in {401, 403} ==> ClassifyError(Some(e)).class_ == Authentication
    ensures e.code.value == 429 ==> ClassifyError(Some(e)).class_ == RateLimit
    ensures e.code.value in {503, 529} ==> ClassifyError(Some(e)).class_ == Overload
    ensures e.code.value in {408, 409} || (500 <= e.code.value < 600 && e.code.value !in {503, 529}) ==>
              ClassifyError(Some(e)).class_ == Execution && ClassifyError(Some(e)).recovery == NoRecovery
    ensures ClassifyError(Some(e)).httpStatus == e.code
  {
  }

  /** The class of a failure that wraps a sentinel, which no code or message changes, and which hides its code. */
  lemma SentinelGivesClass(e: Error)
    ensures AuthRequired in e.wraps ==> ClassifyError(Some(e)).class_ == Authentication
    ensures AuthRequired !in e.wraps && Sentinel.Cancelled in e.wraps ==>
              ClassifyError(Some(e)).class_ == CancelledClass
    ensures AuthRequired !in e.wraps && Sentinel.Cancelled !in e.wraps && CapabilityUnavailable in e.wraps ==>
              ClassifyError(Some(e)).class_ == Capability
    ensures e.wraps != {} && e.wraps <= {CliNotFound, UnsupportedCliVersion} ==>
              ClassifyError(Some(e)).class_ == Cli
    ensures e.wraps != {} ==> ClassifyError(Some(e)).httpStatus == None
  {
    SentinelDecides(e.wraps);
  }

  /** The class of any other failure goes by what its message says, and is a failed execution if it says nothing. */
  lemma MessageGivesClass(e: Error)
    requires LeftToMessage(e)
    ensures var c := ClassifyError(Some(e)).class_;
            && (c == TransientConnection <==> SaysConnection(e.lowered))
            && (c == RateLimit <==> SaysLimit(e.lowered) && !SaysConnection(e.lowered))
            && (c == Overload <==> SaysOverload(e.lowered) && !SaysConnection(e.lowered) && !SaysLimit(e.lowered))
            && c in {TransientConnection, RateLimit, Overload, Authentication, Execution}
  {
    MessageDecides(e.lowered);
  }

  /** The finer class: the first list with a phrase in the message decides. */
  lemma SubclassExactly(text: string)
    ensures SubclassFromMessage(text) ==
      if SaysTooLong(text) then PromptTooLong
      else if SaysAny(text, ["tokens per minute", "tpm", "token rate"]) then RateLimitTokens
      else if SaysAny(text, ["requests per minute", "rpm", "request rate"]) then RateLimitRequests
      else if SaysAny(text, ["invalid params", "expected array", "invalid_request_error", "invalid_schema",
                             "malformed", "schema validation"]) then InvalidSchema
      else if SaysAny(text, ["model not found", "unknown model", "invalid model", "model does not exist"])
      then InvalidModel
      else if SaysAny(text, ["provider error", "upstream", "bad gateway", "provider_returned_error"])
      then ProviderError
      else if SaysAny(text, ["opencode acp exited", "subprocess", "process failed", "broken pipe"])
      then SubprocessDied
      else NoSubClass
  {
    TooLongExactly(text);
    ContainsAnyExactly(text, TOKEN_RATE_WORDS);
    ContainsAnyExactly(text, REQUEST_RATE_WORDS);
    ContainsAnyExactly(text, SCHEMA_WORDS);
    ContainsAnyExactly(text, MODEL_WORDS);
    ContainsAnyExactly(text, PROVIDER_WORDS);
    ContainsAnyExactly(text, SUBPROCESS_WORDS);
  }
}
