/** services/aiService.js: one Gemini request per batch of articles, with
    Markdown-fence cleaning of the reply, a shape check on the parsed JSON,
    and up to five attempts with a growing or server-suggested delay.
    The Gemini API is the parameter `respond` (what attempt `k` returns)
    and `JSON.parse` is the parameter `parse`. */
module AiService {
  import opened Wrappers
  import opened Text
  import opened Store

  const MaxRetries := 5
  const InitialRetryDelayMs := 2000

  /** The message of the shape-check error (services/aiService.js:157). */
  const ShapeErrorMessage := "Gemini returned invalid or empty question structure."
  const FetchErrorPrefix := "GoogleGenerativeAIFetchError: "

  /** The `@type` literal the code compares against, a Markdown link. */
  const RetryInfoTypeAsWritten := "[type.googleapis.com/google.rpc.RetryInfo](https://type.googleapis.com/google.rpc.RetryInfo)"
  /** The `@type` the Gemini API puts on its RetryInfo detail. */
  const RetryInfoType := "type.googleapis.com/google.rpc.RetryInfo"

  /** One article of a batch: `_id` as a string, `title`, `sourceName`. */
  datatype BatchInput = BatchInput(id: ArticleId, title: Field, sourceName: string)

  /** One generated question object as the model replies it. */
  datatype AiQuestion = AiQuestion(questionText: Option<string>, options: Option<seq<string>>, correctAnswer: Option<string>)

  /** A parsed JSON value, reduced to what the code inspects: an object's
      keys that name articles (with their question arrays) plus how many
      other keys it has, an array's length, or another value. */
  datatype Json = JNull | JScalar | JArray(length: nat) | JObject(byId: map<ArticleId, seq<AiQuestion>>, otherKeys: nat)

  datatype ParseResult = SyntaxError | Parsed(value: Json)

  /** One entry of a Gemini error's `errorDetails`. */
  datatype ErrorDetail = ErrorDetail(typeName: string, retryDelay: Option<string>)

  /** What a Gemini call does: replies with text, or throws an error with an
      optional HTTP status, optional details and a message. */
  datatype Attempt =
    | Responded(text: string)
    | ApiFailure(status: Option<int>, details: Option<seq<ErrorDetail>>, message: string)

  /** How one pass through the `try` block ends. */
  datatype AttemptResult =
    | Success(json: Json)
    | Syntax
    | Failed(status: Option<int>, details: Option<seq<ErrorDetail>>, message: string)

  /** The error the function rejects with: the wrapped fetch error after the
      last attempt, or the `ReferenceError` raised by reading `text` in the
      `catch` block (it is declared inside the `try`). */
  datatype AiError = FetchError(message: string) | TextNotDefined

  datatype BatchOutcome = Returned(json: Json) | Threw(error: AiError)

  /** The outcome, the delays slept between attempts, and the number of
      Gemini calls made. */
  datatype Run = Run(outcome: BatchOutcome, sleeps: seq<int>, calls: nat)

  const EmptyObject := JObject(map[], 0)

  /** `typeof v === "object" && v !== null && Object.keys(v).length > 0`. */
  predicate ShapeOk(j: Json) {
    match j
    case JNull => false
    case JScalar => false
    case JArray(n) => n > 0
    case JObject(byId, other) => |byId| + other > 0
  }

  /** The reply cleaning of services/aiService.js:112-128. */
  function CleanJson(text: string): string {
    StripFences(JsTrim(text))
  }

  /** The fence removal applied to the trimmed reply. */
  function StripFences(c1: string): string {
    StripClose(StripNewline(StripOpen(c1)))
  }

  /** A leading ```json fence is cut and the rest trimmed. */
  function StripOpen(c: string): string {
    if StartsWith(c, "```json") then JsTrim(c[7..]) else c
  }

  /** A leading newline is cut and the rest trimmed. */
  function StripNewline(c: string): string {
    if StartsWith(c, "\n") then JsTrim(c[1..]) else c
  }

  /** A trailing ``` fence is cut and the rest trimmed. */
  function StripClose(c: string): string {
    if EndsWith(c, "```") then JsTrim(c[..|c| - 3]) else c
  }

  function Evaluate(a: Attempt, parse: string -> ParseResult): AttemptResult {
    match a
    case ApiFailure(status, details, message) => Failed(status, details, message)
    case Responded(text) =>
      match parse(CleanJson(text))
      case SyntaxError => Syntax
      case Parsed(j) => if ShapeOk(j) then Success(j) else Failed(None, None, ShapeErrorMessage)
  }

  /** Index of the first detail of type `infoType`, or -1 (`find`). */
  function FindDetail(ds: seq<ErrorDetail>, infoType: string): (r: int)
    ensures -1 <= r < |ds|
    ensures r >= 0 ==> ds[r].typeName == infoType && forall k :: 0 <= k < r ==> ds[k].typeName != infoType
    ensures r == -1 <==> forall k :: 0 <= k < |ds| ==> ds[k].typeName != infoType
  {
    if ds == [] then -1
    else if ds[0].typeName == infoType then 0
    else var k := FindDetail(ds[1..], infoType); if k == -1 then -1 else k + 1
  }

  /** The delay before the next attempt (services/aiService.js:174-208):
      on a 429 carrying a RetryInfo detail, its `retryDelay` in seconds
      (when it parses to a non-zero number), otherwise the doubled delay. */
  function NextDelay(status: Option<int>, details: Option<seq<ErrorDetail>>, delay: int, infoType: string): int {
    if status == Some(429) && details.Some? && FindDetail(details.value, infoType) >= 0 then
      var info := details.value[FindDetail(details.value, infoType)];
      var secs := if info.retryDelay.Some? && info.retryDelay.value != "" then JsParseInt(ReplaceFirst(info.retryDelay.value, "s", "")) else None;
      if secs.Some? && secs.value != 0 then secs.value * 1000 else delay * 2
    else delay * 2
  }

  /** How the delay before the next attempt follows from a failure's
      status and details and the current delay. */
  type DelayRule = (Option<int>, Option<seq<ErrorDetail>>, int) -> int

  /** The rule of services/aiService.js:174-208, with `infoType` the
      `@type` its RetryInfo lookup compares against. */
  function Delays(infoType: string): DelayRule {
    (status: Option<int>, details: Option<seq<ErrorDetail>>, delay: int) => NextDelay(status, details, delay, infoType)
  }

  /** How each attempt ends, given what the API replies. */
  function Results(respond: nat -> Attempt, parse: string -> ParseResult): nat -> AttemptResult {
    (k: nat) => Evaluate(respond(k), parse)
  }

  /** The remaining attempts from attempt `k` with the current `delay`,
      given how each attempt ends and how the delay grows. */
  function RunFrom(k: nat, delay: int, results: nat -> AttemptResult, next: DelayRule): (r: Run)
    requires k < MaxRetries
    decreases MaxRetries - k
  {
    match results(k)
    case Success(j) => Run(Returned(j), [], k + 1)
    case Syntax => Run(Threw(TextNotDefined), [], k + 1)
    case Failed(status, details, message) =>
      var d := next(status, details, delay);
      if k + 1 < MaxRetries then
        var rest := RunFrom(k + 1, d, results, next);
        Run(rest.outcome, [d] + rest.sleeps, rest.calls)
      else Run(Threw(FetchError(FetchErrorPrefix + message)), [], k + 1)
  }

  /** `generateQuestionsForBatch(articles)` as a value, with `infoType` the
      `@type` the RetryInfo lookup compares against: the code passes
      `RetryInfoTypeAsWritten`, the intended program `RetryInfoType`. */
  function BatchSpec(articles: seq<BatchInput>, respond: nat -> Attempt, parse: string -> ParseResult, infoType: string): Run {
    if |articles| == 0 then Run(Returned(EmptyObject), [], 0)
    else RunFrom(0, InitialRetryDelayMs, Results(respond, parse), Delays(infoType))
  }

  /** `generateQuestionsForBatch` of services/aiService.js:24-224, whose
      RetryInfo lookup compares against the literal as written. */
  method GenerateQuestionsForBatch(articles: seq<BatchInput>, respond: nat -> Attempt, parse: string -> ParseResult)
    returns (outcome: BatchOutcome, sleeps: seq<int>, calls: nat)
    ensures Run(outcome, sleeps, calls) == BatchSpec(articles, respond, parse, RetryInfoTypeAsWritten)
  {
    if |articles| == 0 {
      return Returned(EmptyObject), [], 0;
    }
    outcome, sleeps, calls := RetryLoop(Results(respond, parse), Delays(RetryInfoTypeAsWritten));
  }

  /** The `while (retryCount < MAX_RETRIES)` loop, given how each attempt
      ends and how the delay grows. */
  method RetryLoop(results: nat -> AttemptResult, next: DelayRule)
    returns (outcome: BatchOutcome, sleeps: seq<int>, calls: nat)
    ensures Run(outcome, sleeps, calls) == RunFrom(0, InitialRetryDelayMs, results, next)
  {
    var retryCount := 0;
    var delay := InitialRetryDelayMs;
    sleeps, calls := [], 0;
    while retryCount < MaxRetries
      invariant retryCount < MaxRetries && calls == retryCount
      invariant var r := RunFrom(retryCount, delay, results, next);
        RunFrom(0, InitialRetryDelayMs, results, next) == Run(r.outcome, sleeps + r.sleeps, r.calls)
      decreases MaxRetries - retryCount
    {
      var result := results(retryCount);
      RunFromStep(retryCount, delay, results, next);
      calls := calls + 1;
      match result {
        case Success(j) =>
          assert sleeps + [] == sleeps;
          return Returned(j), sleeps, calls;
        case Syntax =>
          assert sleeps + [] == sleeps;
          return Threw(TextNotDefined), sleeps, calls;
        case Failed(status, details, message) =>
          delay := next(status, details, delay);
          retryCount := retryCount + 1;
          if retryCount < MaxRetries {
            var rest := RunFrom(retryCount, delay, results, next);
            assert sleeps + ([delay] + rest.sleeps) == (sleeps + [delay]) + rest.sleeps;
            sleeps := sleeps + [delay];
          } else {
            assert sleeps + [] == sleeps;
            return Threw(FetchError(FetchErrorPrefix + message)), sleeps, calls;
          }
      }
    }
    assert false;
    outcome := Returned(EmptyObject);
  }

  /** How attempt `k` ends decides the run from `k`: it stops on a
      success, a syntax error or the last failure, and otherwise sleeps
      and goes on. */
  lemma RunFromStep(k: nat, delay: int, results: nat -> AttemptResult, next: DelayRule)
    requires k < MaxRetries
    ensures results(k).Success? ==> RunFrom(k, delay, results, next) == Run(Returned(results(k).json), [], k + 1)
    ensures results(k).Syntax? ==> RunFrom(k, delay, results, next) == Run(Threw(TextNotDefined), [], k + 1)
    ensures results(k).Failed? && k + 1 == MaxRetries ==>
      RunFrom(k, delay, results, next) == Run(Threw(FetchError(FetchErrorPrefix + results(k).message)), [], k + 1)
    ensures results(k).Failed? && k + 1 < MaxRetries ==>
      var d := next(results(k).status, results(k).details, delay);
      var rest := RunFrom(k + 1, d, results, next);
      RunFrom(k, delay, results, next) == Run(rest.outcome, [d] + rest.sleeps, rest.calls)
  {
  }

  // ---- properties ----

  /** An empty batch makes no call and resolves to `{}`. */
  lemma EmptyBatchMakesNoCall(respond: nat -> Attempt, parse: string -> ParseResult, infoType: string)
    ensures BatchSpec([], respond, parse, infoType) == Run(Returned(EmptyObject), [], 0)
  {
  }

  /** From attempt `k`, between one and `5 - k` more calls happen, and one
      sleep separates each pair of consecutive calls. */
  lemma {:induction false} RunFromBounds(k: nat, delay: int, results: nat -> AttemptResult, next: DelayRule)
    requires k < MaxRetries
    ensures var r := RunFrom(k, delay, results, next);
      k < r.calls <= MaxRetries && |r.sleeps| == r.calls - 1 - k
    decreases MaxRetries - k
  {
    var a := results(k);
    if a.Failed? && k + 1 < MaxRetries {
      RunFromBounds(k + 1, next(a.status, a.details, delay), results, next);
    }
  }

  /** A non-empty batch makes between one and five calls and sleeps once
      between consecutive calls. */
  lemma BatchBounds(articles: seq<BatchInput>, respond: nat -> Attempt, parse: string -> ParseResult, infoType: string)
    requires |articles| > 0
    ensures var r := BatchSpec(articles, respond, parse, infoType);
      1 <= r.calls <= MaxRetries && |r.sleeps| == r.calls - 1
  {
    RunFromBounds(0, InitialRetryDelayMs, Results(respond, parse), Delays(infoType));
  }

  /** Whatever resolves is what the last attempt produced, and no earlier
      attempt succeeded. */
  lemma {:induction false} RunFromReturnsLast(k: nat, delay: int, results: nat -> AttemptResult, next: DelayRule)
    requires k < MaxRetries
    ensures var r := RunFrom(k, delay, results, next);
      && k < r.calls
      && (r.outcome.Returned? ==> results(r.calls - 1) == Success(r.outcome.json))
      && (forall i :: k <= i < r.calls - 1 ==> results(i).Failed?)
    decreases MaxRetries - k
  {
    var a := results(k);
    var r := RunFrom(k, delay, results, next);
    if a.Failed? && k + 1 < MaxRetries {
      var d := next(a.status, a.details, delay);
      RunFromReturnsLast(k + 1, d, results, next);
      var rest := RunFrom(k + 1, d, results, next);
      assert r.outcome == rest.outcome && r.calls == rest.calls;
      forall i | k <= i < r.calls - 1 ensures results(i).Failed? {
        if i == k {
          assert results(i) == a;
        }
      }
    } else {
      assert r.calls == k + 1;
    }
  }

  /** What a non-empty batch resolves to is an object or array with at least
      one key, parsed from the last reply, every earlier attempt having
      failed. */
  lemma BatchReturnsShaped(articles: seq<BatchInput>, respond: nat -> Attempt, parse: string -> ParseResult, infoType: string)
    requires |articles| > 0
    ensures var r := BatchSpec(articles, respond, parse, infoType);
      && r.calls >= 1
      && (r.outcome.Returned? ==>
            && ShapeOk(r.outcome.json)
            && respond(r.calls - 1).Responded?
            && parse(CleanJson(respond(r.calls - 1).text)) == Parsed(r.outcome.json))
      && (forall i :: 0 <= i < r.calls - 1 ==> Evaluate(respond(i), parse).Failed?)
  {
    FirstRunShaped(articles, respond, parse, infoType, BatchSpec(articles, respond, parse, infoType));
  }

  /** The facts of `BatchReturnsShaped`, for the run a non-empty batch makes. */
  lemma FirstRunShaped(articles: seq<BatchInput>, respond: nat -> Attempt, parse: string -> ParseResult, infoType: string, r: Run)
    requires |articles| > 0 && r == BatchSpec(articles, respond, parse, infoType)
    ensures r.calls >= 1
    ensures r.outcome.Returned? ==>
            && ShapeOk(r.outcome.json)
            && respond(r.calls - 1).Responded?
            && parse(CleanJson(respond(r.calls - 1).text)) == Parsed(r.outcome.json)
    ensures forall i :: 0 <= i < r.calls - 1 ==> Evaluate(respond(i), parse).Failed?
  {
    var results := Results(respond, parse);
    assert r == RunFrom(0, InitialRetryDelayMs, results, Delays(infoType));
    RunFromReturnsLast(0, InitialRetryDelayMs, results, Delays(infoType));
    if r.outcome.Returned? {
      SucceededAttempt(respond, parse, r.calls - 1, r.outcome.json);
    }
    FailedAttempts(respond, parse, r.calls - 1);
  }

  /** Attempts that ended in failure, read through `Results`, are failed evaluations. */
  lemma FailedAttempts(respond: nat -> Attempt, parse: string -> ParseResult, n: int)
    requires forall i :: 0 <= i < n ==> Results(respond, parse)(i).Failed?
    ensures forall i :: 0 <= i < n ==> Evaluate(respond(i), parse).Failed?
  {
    forall i | 0 <= i < n ensures Evaluate(respond(i), parse).Failed? {
      assert Results(respond, parse)(i) == Evaluate(respond(i), parse);
    }
  }

  /** An attempt that succeeded, read through `Results`, replied with text
      that cleans and parses to a value of the accepted shape. */
  lemma SucceededAttempt(respond: nat -> Attempt, parse: string -> ParseResult, i: nat, j: Json)
    requires Results(respond, parse)(i) == Success(j)
    ensures ShapeOk(j) && respond(i).Responded? && parse(CleanJson(respond(i).text)) == Parsed(j)
  {
    assert Evaluate(respond(i), parse) == Success(j);
    SuccessShaped(respond(i), parse, j);
  }

  lemma SuccessShaped(a: Attempt, parse: string -> ParseResult, j: Json)
    requires Evaluate(a, parse) == Success(j)
    ensures ShapeOk(j) && a.Responded? && parse(CleanJson(a.text)) == Parsed(j)
  {
  }

  /** A reply that does not parse is not retried: the `catch` block itself
      throws before the retry logic is reached. */
  lemma SyntaxErrorIsNotRetried(k: nat, delay: int, respond: nat -> Attempt, parse: string -> ParseResult, next: DelayRule)
    requires k < MaxRetries
    requires respond(k).Responded? && parse(CleanJson(respond(k).text)) == SyntaxError
    ensures RunFrom(k, delay, Results(respond, parse), next) == Run(Threw(TextNotDefined), [], k + 1)
  {
    assert Results(respond, parse)(k) == Syntax;
  }

  /** Failure without status 429 doubles the delay. */
  predicate OrdinaryFailure(a: AttemptResult) {
    a.Failed? && a.status != Some(429)
  }

  lemma OrdinaryStep(k: nat, delay: int, results: nat -> AttemptResult, infoType: string)
    requires k + 1 < MaxRetries
    requires OrdinaryFailure(results(k))
    ensures var rest := RunFrom(k + 1, delay * 2, results, Delays(infoType));
      RunFrom(k, delay, results, Delays(infoType)) == Run(rest.outcome, [delay * 2] + rest.sleeps, rest.calls)
  {
    assert Delays(infoType)(results(k).status, results(k).details, delay) == delay * 2;
  }

  /** When every attempt fails without a 429, the service sleeps 4, 8, 16
      and 32 seconds and finally rejects with the last error's message
      wrapped. */
  lemma AllOrdinaryFailures(results: nat -> AttemptResult, infoType: string)
    requires forall k :: 0 <= k < MaxRetries ==> OrdinaryFailure(results(k))
    ensures results(4).Failed? && RunFrom(0, InitialRetryDelayMs, results, Delays(infoType))
         == Run(Threw(FetchError(FetchErrorPrefix + results(4).message)), [4000, 8000, 16000, 32000], 5)
  {
    assert OrdinaryFailure(results(4));
    assert RunFrom(4, 32000, results, Delays(infoType)) == Run(Threw(FetchError(FetchErrorPrefix + results(4).message)), [], 5);
    OrdinaryStep(3, 16000, results, infoType);
    OrdinaryStep(2, 8000, results, infoType);
    OrdinaryStep(1, 4000, results, infoType);
    OrdinaryStep(0, 2000, results, infoType);
  }

  /** In particular, five API errors without a 429 status make the batch
      reject with the fifth error's message after sleeping 4, 8, 16, 32 s. */
  lemma AllApiErrors(articles: seq<BatchInput>, respond: nat -> Attempt, parse: string -> ParseResult, infoType: string)
    requires |articles| > 0
    requires forall k :: 0 <= k < MaxRetries ==> respond(k).ApiFailure? && respond(k).status != Some(429)
    ensures BatchSpec(articles, respond, parse, infoType)
         == Run(Threw(FetchError(FetchErrorPrefix + respond(4).message)), [4000, 8000, 16000, 32000], 5)
  {
    var results := Results(respond, parse);
    forall k | 0 <= k < MaxRetries ensures OrdinaryFailure(results(k)) {
      assert results(k) == Evaluate(respond(k), parse);
    }
    AllOrdinaryFailures(results, infoType);
    assert results(4) == Evaluate(respond(4), parse);
  }

  /** A first reply that parses to a non-empty object resolves at once. */
  lemma FirstReplyAccepted(articles: seq<BatchInput>, respond: nat -> Attempt, parse: string -> ParseResult, j: Json, infoType: string)
    requires |articles| > 0
    requires respond(0).Responded? && parse(CleanJson(respond(0).text)) == Parsed(j) && ShapeOk(j)
    ensures BatchSpec(articles, respond, parse, infoType) == Run(Returned(j), [], 1)
  {
    assert Results(respond, parse)(0) == Success(j);
  }

  /** A reply that parses to a shape the check refuses counts as an
      ordinary failure. */
  lemma EmptyReplyIsRetried(a: Attempt, parse: string -> ParseResult, j: Json)
    requires a.Responded? && parse(CleanJson(a.text)) == Parsed(j) && !ShapeOk(j)
    ensures Evaluate(a, parse) == Failed(None, None, ShapeErrorMessage)
  {
  }

  /** The `"s"` suffix comes off a decimal delay and `parseInt` reads the
      number back. */
  lemma DelaySecondsParse(n: nat)
    ensures JsParseInt(ReplaceFirst(DecimalString(n) + "s", "s", "")) == Some(n)
  {
    var d := DecimalString(n);
    assert 's' !in d by {
      forall i | 0 <= i < |d| ensures d[i] != 's' { assert IsAsciiDigit(d[i]); }
    }
    ReplaceFirstAppended(d, "s");
    JsParseIntDecimal(n, []);
    assert d + [] == d;
  }

  /** A 429 whose first RetryInfo detail asks for `n` seconds (written
      `"<n>s"`) sets the delay to `n` seconds. */
  lemma ServerDelayHonoured(details: seq<ErrorDetail>, delay: int, n: nat)
    requires n > 0
    requires FindDetail(details, RetryInfoType) >= 0
    requires details[FindDetail(details, RetryInfoType)].retryDelay == Some(DecimalString(n) + "s")
    ensures NextDelay(Some(429), Some(details), delay, RetryInfoType) == n * 1000
  {
    DelaySecondsParse(n);
  }

  /** As written, the comparison literal is a Markdown link that no detail
      the API sends can equal, so a genuine RetryInfo is ignored and the
      delay doubles. */
  lemma ServerDelayIgnoredAsWritten(details: seq<ErrorDetail>, delay: int)
    requires forall k :: 0 <= k < |details| ==> details[k].typeName == RetryInfoType
    ensures NextDelay(Some(429), Some(details), delay, RetryInfoTypeAsWritten) == delay * 2
  {
    assert RetryInfoType != RetryInfoTypeAsWritten by {
      assert |RetryInfoType| != |RetryInfoTypeAsWritten|;
    }
  }

  /** The whole loop as written: a 429 whose details are all genuine
      RetryInfo entries, then a good reply, sleeps the doubled 4 seconds
      whatever delay the server asked for. */
  lemma ServerDelayLoopAsWritten(articles: seq<BatchInput>, respond: nat -> Attempt, parse: string -> ParseResult,
                                 details: seq<ErrorDetail>, j: Json)
    requires |articles| > 0
    requires respond(0).ApiFailure? && respond(0).status == Some(429) && respond(0).details == Some(details)
    requires forall k :: 0 <= k < |details| ==> details[k].typeName == RetryInfoType
    requires respond(1).Responded? && parse(CleanJson(respond(1).text)) == Parsed(j) && ShapeOk(j)
    ensures BatchSpec(articles, respond, parse, RetryInfoTypeAsWritten) == Run(Returned(j), [4000], 2)
  {
    var results := Results(respond, parse);
    assert results(0) == Failed(Some(429), Some(details), respond(0).message);
    assert results(1) == Success(j);
    ServerDelayIgnoredAsWritten(details, InitialRetryDelayMs);
  }

  /** The whole loop with the type compared correctly: the same 429 asking
      for `n` seconds, then a good reply, sleeps exactly `n` seconds. */
  lemma ServerDelayLoopHonoured(articles: seq<BatchInput>, respond: nat -> Attempt, parse: string -> ParseResult,
                                details: seq<ErrorDetail>, j: Json, n: nat)
    requires |articles| > 0 && n > 0
    requires respond(0).ApiFailure? && respond(0).status == Some(429) && respond(0).details == Some(details)
    requires FindDetail(details, RetryInfoType) >= 0
    requires details[FindDetail(details, RetryInfoType)].retryDelay == Some(DecimalString(n) + "s")
    requires respond(1).Responded? && parse(CleanJson(respond(1).text)) == Parsed(j) && ShapeOk(j)
    ensures BatchSpec(articles, respond, parse, RetryInfoType) == Run(Returned(j), [n * 1000], 2)
  {
    var results := Results(respond, parse);
    assert results(0) == Failed(Some(429), Some(details), respond(0).message);
    assert results(1) == Success(j);
    ServerDelayHonoured(details, InitialRetryDelayMs, n);
  }

  /** Trimming text whose inner starts and ends with a non-space character
      leaves that inner. */
  lemma TrimAround(pre: string, inner: string, post: string)
    requires AllSpace(pre, false) && AllSpace(post, false)
    requires inner != [] && !IsSpace(inner[0], false) && !IsSpace(inner[|inner| - 1], false)
    ensures JsTrim(pre + inner + post) == inner
  {
    assert pre + inner + post == pre + (inner + post);
    assert !AllSpace(inner + post, false) by { assert (inner + post)[0] == inner[0]; }
    TrimStartAppend(pre, inner + post, false);
    assert !AllSpace(inner, false) by { assert !IsSpace(inner[0], false); }
    TrimStartAppend(inner, post, false);
    TrimStartOfTrimmed(inner, false);
    assert TrimStart(pre + inner + post, false) == inner + post;
    TrimEndAppend(inner, post, false);
    TrimEndOfTrimmed(inner, false);
  }

  /** After the opening fence is cut, the rest trims to the body's trimmed
      start followed by the closing fence. */
  lemma TrimBodyThenFence(body: string)
    ensures JsTrim(body + "```") == TrimStart(body, false) + "```"
  {
    if AllSpace(body, false) {
      TrimBlankThenFence(body);
    } else {
      TrimTextThenFence(body);
    }
  }

  lemma TrimBlankThenFence(body: string)
    requires AllSpace(body, false)
    ensures JsTrim(body + "```") == TrimStart(body, false) + "```"
  {
    TrimStartAppend(body, "```", false);
    assert TrimStart(body + "```", false) == TrimStart("```", false);
    TrimStartAppend(body, [], false);
    assert body + [] == body;
    assert TrimStart(body, false) == [];
    ThreeTicksTrimmed();
  }

  lemma ThreeTicksTrimmed()
    ensures TrimEnd(TrimStart("```", false), false) == "```"
  {
    TrimStartOfTrimmed("```", false);
    TrimEndOfTrimmed("```", false);
  }

  lemma TrimTextThenFence(body: string)
    requires !AllSpace(body, false)
    ensures JsTrim(body + "```") == TrimStart(body, false) + "```"
  {
    TrimStartAppend(body, "```", false);
    var t := TrimStart(body, false) + "```";
    assert t[|t| - 1] == '`';
    TrimEndOfTrimmed(t, false);
  }

  /** A reply wrapped in a ```json fence (with any whitespace around it)
      is cleaned to its trimmed body. */
  lemma CleanFenced(pre: string, body: string, post: string)
    requires AllSpace(pre, false) && AllSpace(post, false)
    ensures CleanJson(pre + "```json" + body + "```" + post) == JsTrim(body)
  {
    var inner := "```json" + body + "```";
    assert pre + "```json" + body + "```" + post == pre + inner + post;
    TrimAround(pre, inner, post);
    CleanCore(body);
  }

  /** The cleaning steps after the outer trim, on the fenced inner. */
  lemma CleanCore(body: string)
    ensures StripFences("```json" + body + "```") == JsTrim(body)
  {
    var b := TrimStart(body, false);
    OpenFenceCut(body);
    NoNewlineAfterTrim(b);
    CloseFenceCut(b);
    TrimStartOfTrimmed(b, false);
  }

  lemma OpenFenceCut(body: string)
    ensures StripOpen("```json" + body + "```") == TrimStart(body, false) + "```"
  {
    var inner := "```json" + body + "```";
    assert StartsWith(inner, "```json");
    assert inner[7..] == body + "```";
    TrimBodyThenFence(body);
  }

  lemma NoNewlineAfterTrim(b: string)
    requires b == [] || !IsSpace(b[0], false)
    ensures StripNewline(b + "```") == b + "```"
  {
    var c2 := b + "```";
    assert c2[0] != '\n' by {
      if b == [] { assert c2[0] == '`'; } else { assert c2[0] == b[0]; }
    }
    assert c2[..1][0] == c2[0];
    assert !StartsWith(c2, "\n");
  }

  lemma CloseFenceCut(b: string)
    ensures StripClose(b + "```") == JsTrim(b)
  {
    var c2 := b + "```";
    assert EndsWith(c2, "```");
    assert c2[..|c2| - 3] == b;
  }

  /** A reply with no fence at either end is only trimmed. */
  lemma CleanUnfenced(text: string)
    requires !StartsWith(JsTrim(text), "```json") && !EndsWith(JsTrim(text), "```")
    ensures CleanJson(text) == JsTrim(text)
  {
    TrimEdges(text, false);
  }

  /** The leading-newline step never changes the reply: it always follows a
      trim, the outer one or the one after the cut ```json fence. */
  lemma NewlineBranchIsDead(text: string)
    ensures StripNewline(StripOpen(JsTrim(text))) == StripOpen(JsTrim(text))
  {
    var c1 := JsTrim(text);
    TrimEdges(text, false);
    if StartsWith(c1, "```json") {
      TrimEdges(c1[7..], false);
    }
    var c := StripOpen(c1);
    if c != [] {
      assert c[..1][0] == c[0];
    }
  }

  /** A bare ``` opener is not removed: only ```json is cut at the start, so
      unless the reply is too short for both fences, the cleaned reply still
      starts with the three backticks. */
  lemma BareFenceKept(text: string)
    requires var t := JsTrim(text); StartsWith(t, "```") && !StartsWith(t, "```json") && |t| >= 6
    ensures StartsWith(CleanJson(text), "```")
  {
    var t := JsTrim(text);
    NewlineBranchIsDead(text);
    assert StripNewline(StripOpen(t)) == t;
    if EndsWith(t, "```") {
      var u := t[..|t| - 3];
      assert u[..3] == t[..3];
      TrimKeepsPrefix(u, "```", false);
    }
  }
}
