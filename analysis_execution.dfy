/**
 * The analysis hook: the ordered pre-flight checks, the feature-parameter
 * payload, the request body and authorization header, the error-message
 * cascade after an HTTP failure, and the `isAnalyzing`/`results` state.
 *
 * The network call, JSON parsing and base64 encoding are not modelled; they
 * are supplied as functions in an `Environment`. Notifications and the other
 * observable steps (credential reads, flag changes, the statistics update,
 * the request) are recorded in an event log, in the order they happen.
 */
module AnalysisExecution {
  import opened Wrappers
  import opened JsStrings
  import InputManagement
  import Credentials

  // ---------------------------------------------------------------------------
  // Features and the feature-parameter payload

  datatype FeatureName = Keywords | Entities | Concepts | Relations | Categories | Classifications

  /** Which optional analyses are requested. */
  datatype Features = Features(
    keywords: bool, entities: bool, concepts: bool,
    relations: bool, categories: bool, classifications: bool)

  /** Result caps of the list-valued analyses. */
  datatype Limits = Limits(keywords: int, entities: int, concepts: int, categories: int)

  /** The sub-options object of one feature; `None` is an absent property. */
  datatype FeatureOptions = FeatureOptions(limit: Option<int>, sentiment: Option<bool>, model: Option<string>)

  type FeaturesParams = map<FeatureName, FeatureOptions>

  predicate Enabled(features: Features, name: FeatureName) {
    match name
    case Keywords => features.keywords
    case Entities => features.entities
    case Concepts => features.concepts
    case Relations => features.relations
    case Categories => features.categories
    case Classifications => features.classifications
  }

  /** The set of enabled feature flags. */
  function EnabledFeatures(features: Features): (names: set<FeatureName>)
    ensures forall n: FeatureName :: n in names <==> Enabled(features, n)
  {
    (if features.keywords then {Keywords} else {})
    + (if features.entities then {Entities} else {})
    + (if features.concepts then {Concepts} else {})
    + (if features.relations then {Relations} else {})
    + (if features.categories then {Categories} else {})
    + (if features.classifications then {Classifications} else {})
  }

  /**
   * The payload promised for the features: exactly the enabled features;
   * keywords and entities with their limit and per-item sentiment; concepts
   * and categories with their limit only; relations with no options; tone
   * classification with the chosen model only.
   */
  ghost predicate ParamsFor(params: FeaturesParams, features: Features, limits: Limits, toneModel: string) {
    && params.Keys == EnabledFeatures(features)
    && (Keywords in params ==> params[Keywords] == FeatureOptions(Some(limits.keywords), Some(true), None))
    && (Entities in params ==> params[Entities] == FeatureOptions(Some(limits.entities), Some(true), None))
    && (Concepts in params ==> params[Concepts] == FeatureOptions(Some(limits.concepts), None, None))
    && (Relations in params ==> params[Relations] == FeatureOptions(None, None, None))
    && (Categories in params ==> params[Categories] == FeatureOptions(Some(limits.categories), None, None))
    && (Classifications in params ==> params[Classifications] == FeatureOptions(None, None, Some(toneModel)))
  }

  /** Fills `featuresParams` one enabled feature at a time. */
  method BuildFeaturesParams(features: Features, limits: Limits, toneModel: string) returns (params: FeaturesParams)
    ensures ParamsFor(params, features, limits, toneModel)
  {
    params := map[];
    if features.keywords {
      params := params[Keywords := FeatureOptions(Some(limits.keywords), Some(true), None)];
    }
    if features.entities {
      params := params[Entities := FeatureOptions(Some(limits.entities), Some(true), None)];
    }
    if features.concepts {
      params := params[Concepts := FeatureOptions(Some(limits.concepts), None, None)];
    }
    if features.relations {
      params := params[Relations := FeatureOptions(None, None, None)];
    }
    if features.categories {
      params := params[Categories := FeatureOptions(Some(limits.categories), None, None)];
    }
    if features.classifications {
      params := params[Classifications := FeatureOptions(None, None, Some(toneModel))];
    }
  }

  /** The promised payload is unique: the features, limits and model fix it completely. */
  lemma ParamsDetermined(p1: FeaturesParams, p2: FeaturesParams, features: Features, limits: Limits, toneModel: string)
    requires ParamsFor(p1, features, limits, toneModel) && ParamsFor(p2, features, limits, toneModel)
    ensures p1 == p2
  {
    forall n | n in p1 ensures p1[n] == p2[n] {
      match n
      case Keywords =>
      case Entities =>
      case Concepts =>
      case Relations =>
      case Categories =>
      case Classifications =>
    }
  }

  // ---------------------------------------------------------------------------
  // Pre-flight checks

  datatype GuardFailure = NoText | NoApiKey | NoUrl | UnsupportedLanguage

  /** Tone analysis is offered for English and French only. */
  predicate ToneLanguageSupported(language: string) {
    language == "en" || language == "fr"
  }

  /** The supported languages are exactly the two listed. */
  lemma ToneLanguagesListed(language: string)
    ensures ToneLanguageSupported(language) <==> language in {"en", "fr"}
  {
  }

  /**
   * A reference for an ordered chain of checks, each a pass flag and the
   * failure it reports: the result is the failure of the first check that
   * does not pass, or `None` when all pass.
   */
  function FirstFailure(checks: seq<(bool, GuardFailure)>): (r: Option<GuardFailure>)
    ensures r.None? <==> forall i :: 0 <= i < |checks| ==> checks[i].0
    ensures r.Some? ==> exists i :: 0 <= i < |checks| && !checks[i].0 && checks[i].1 == r.value
                                    && forall j :: 0 <= j < i ==> checks[j].0
  {
    if checks == [] then None
    else if !checks[0].0 then Some(checks[0].1)
    else
      var r := FirstFailure(checks[1..]);
      assert forall j :: 1 <= j < |checks| ==> checks[j] == checks[1..][j - 1];
      r
  }

  /**
   * The pre-flight checks of `handleAnalyze`, in order: text, API key, URL,
   * then the tone language (only when classification is requested).
   */
  function Preflight(text: string, apiKey: string, url: string, features: Features, language: string): (r: Option<GuardFailure>)
    ensures text == [] ==> r == Some(NoText)
    ensures text != [] && apiKey == [] ==> r == Some(NoApiKey)
    ensures text != [] && apiKey != [] && url == [] ==> r == Some(NoUrl)
    ensures r == Some(UnsupportedLanguage) <==>
              text != [] && apiKey != [] && url != [] && features.classifications && !ToneLanguageSupported(language)
    ensures r.None? <==>
              text != [] && apiKey != [] && url != [] && (features.classifications ==> ToneLanguageSupported(language))
  {
    if text == [] then Some(NoText)
    else if apiKey == [] then Some(NoApiKey)
    else if url == [] then Some(NoUrl)
    else if features.classifications && !ToneLanguageSupported(language) then Some(UnsupportedLanguage)
    else None
  }

  /** The pre-flight result is the first failing check of the chain text, API key, URL, language. */
  lemma PreflightIsFirstFailure(text: string, apiKey: string, url: string, features: Features, language: string)
    ensures Preflight(text, apiKey, url, features, language) == FirstFailure([
              (text != [], NoText),
              (apiKey != [], NoApiKey),
              (url != [], NoUrl),
              (!features.classifications || ToneLanguageSupported(language), UnsupportedLanguage)])
  {
    var checks := [
      (text != [], NoText),
      (apiKey != [], NoApiKey),
      (url != [], NoUrl),
      (!features.classifications || ToneLanguageSupported(language), UnsupportedLanguage)];
    var c1, c2, c3 := checks[1..], checks[2..], checks[3..];
    assert c1[1..] == c2 && c2[1..] == c3 && c3[1..] == [];
    assert FirstFailure(c3) == if c3[0].0 then None else Some(UnsupportedLanguage);
    assert FirstFailure(c2) == if !c2[0].0 then Some(NoUrl) else FirstFailure(c3);
    assert FirstFailure(c1) == if !c1[0].0 then Some(NoApiKey) else FirstFailure(c2);
    assert FirstFailure(checks) == if !checks[0].0 then Some(NoText) else FirstFailure(c1);
  }

  /** With the text empty, nothing else is looked at: credentials, features and language do not matter. */
  lemma EmptyTextDecidesAlone(k1: string, u1: string, f1: Features, l1: string,
                              k2: string, u2: string, f2: Features, l2: string)
    ensures Preflight([], k1, u1, f1, l1) == Preflight([], k2, u2, f2, l2) == Some(NoText)
  {
  }

  /**
   * Outside the custom region the endpoint is derived and never empty, so the
   * URL check can only fail for the custom region (even with no instance id).
   */
  lemma UrlCheckOnlyForCustomRegion(credentials: Credentials.CredentialsConfig, text: string,
                                    features: Features, language: string)
    requires credentials.region != Credentials.CustomRegion
    ensures Preflight(text, credentials.CurrentApiKey(), credentials.CurrentUrl(), features, language) != Some(NoUrl)
  {
  }

  // ---------------------------------------------------------------------------
  // The request

  const JsonContentType := "application/json"

  /** The JSON body: exactly these three properties. */
  datatype RequestBody = RequestBody(text: string, features: FeaturesParams, language: string)

  /** A POST to `url` with the given headers and body. */
  datatype Request = Request(url: string, headers: map<string, string>, body: RequestBody)

  /** `btoa` accepts a string only when every character is at most U+00FF; otherwise it throws. */
  predicate IsLatin1(s: string) {
    forall i :: 0 <= i < |s| ==> s[i] <= '\U{00FF}'
  }

  lemma Latin1Concat(a: string, b: string)
    ensures IsLatin1(a + b) <==> IsLatin1(a) && IsLatin1(b)
  {
    assert forall i :: 0 <= i < |a| ==> (a + b)[i] == a[i];
    assert forall i :: 0 <= i < |b| ==> (a + b)[|a| + i] == b[i];
  }

  /**
   * The Authorization header: HTTP Basic with user "apikey" and the key as
   * password under IAM, a bearer token otherwise. Under IAM the credential
   * goes through `btoa`, so `None` (the call throws) exactly when the key has
   * a character above U+00FF.
   */
  function AuthorizationHeader(authType: string, apiKey: string, base64: string -> string): (h: Option<string>)
    ensures authType == Credentials.IamAuthType ==> (h.Some? <==> IsLatin1(apiKey))
    ensures authType == Credentials.IamAuthType && h.Some? ==> h.value == "Basic " + base64("apikey:" + apiKey)
    ensures authType != Credentials.IamAuthType ==> h == Some("Bearer " + apiKey)
  {
    if authType == Credentials.IamAuthType then
      var credential := "apikey:" + apiKey;
      Latin1Concat("apikey:", apiKey);
      if IsLatin1(credential) then Some("Basic " + base64(credential)) else None
    else Some("Bearer " + apiKey)
  }

  /**
   * With the auth type the credentials hook reports, the header is the Basic
   * one, and it can be built exactly when the key is Latin-1.
   */
  lemma ConfiguredAuthIsBasic(credentials: Credentials.CredentialsConfig, apiKey: string, base64: string -> string)
    ensures var h := AuthorizationHeader(credentials.AuthType(), apiKey, base64);
      && (h.Some? <==> IsLatin1(apiKey))
      && (h.Some? ==> h.value[..6] == "Basic ")
  {
  }

  /** The request `handleAnalyze` sends for these inputs and this Authorization header. */
  ghost predicate RequestFor(request: Request, text: string, features: Features, limits: Limits, language: string,
                             toneModel: string, url: string, authorization: string)
  {
    && request.url == url
    && request.headers == map["Content-Type" := JsonContentType, "Authorization" := authorization]
    && request.body.text == text
    && request.body.language == language
    && ParamsFor(request.body.features, features, limits, toneModel)
  }

  // ---------------------------------------------------------------------------
  // Outcomes and error messages

  /** The properties `error` and `message` of a parsed error body, when present. */
  datatype ErrorFields = ErrorFields(error: Option<string>, message: Option<string>)

  /**
   * `JSON.parse` of an error body: not JSON, the JSON `null` (reading a
   * property of it throws inside the same try block), or a value whose
   * `error`/`message` properties are read.
   */
  datatype ParsedBody = NotJson | JsonNull | JsonValue(fields: ErrorFields)

  /** What the network call gives back. */
  datatype FetchOutcome<P> =
    | Delivered(payload: P)                                   // ok status and a parsed JSON body
    | HttpError(status: nat, statusText: string, body: string) // status outside 200..299
    | Threw(isError: bool, message: string)                    // a rejection; `isError` for an Error instance

  /**
   * The abstract collaborators: the network, `JSON.parse`, `btoa` on the
   * Latin-1 strings it accepts, and the message of the error `btoa` throws
   * otherwise (an Error instance whose text the host chooses).
   */
  datatype Environment<P> = Environment(
    fetch: Request -> FetchOutcome<P>,
    parse: string -> ParsedBody,
    base64: string -> string,
    encodingErrorMessage: string)

  /** JavaScript truthiness of an optional string property. */
  predicate Truthy(s: Option<string>) {
    s.Some? && s.value != []
  }

  const NotFoundMessage := "Service URL not found (404). Please check your API endpoint."

  /** "Error ", the status in decimal, ": " and the detail, in that order and nothing else. */
  function StatusMessage(status: nat, detail: string): (m: string)
    ensures var n := |NatToString(status)|;
      && |m| == 6 + n + 2 + |detail|
      && m[..6] == "Error "
      && m[6..6 + n] == NatToString(status)
      && m[6 + n..] == ": " + detail
  {
    "Error " + NatToString(status) + ": " + detail
  }

  /** A status message names the status: its decimal digits follow "Error " and read back as the status. */
  lemma StatusMessageNamesStatus(status: nat, detail: string)
    ensures var m, digits := StatusMessage(status, detail), NatToString(status);
      && (forall c <- m[6..6 + |digits|] :: IsDigit(c))
      && DigitsValue(m[6..6 + |digits|]) == status
  {
    NatToStringRoundTrip(status);
  }

  /**
   * The message thrown after a non-ok response: from a parsed body its
   * `error`, else its `message`, else the status line; from a body that is
   * not usable JSON the fixed 404 message, or the status line with the status
   * text, or the raw body when the status text is empty. Never empty.
   */
  function HttpErrorMessage(status: nat, statusText: string, body: string, parsed: ParsedBody): (m: string)
    ensures m != []
    ensures parsed.JsonValue? && Truthy(parsed.fields.error) ==> m == parsed.fields.error.value
    ensures parsed.JsonValue? && !Truthy(parsed.fields.error) && Truthy(parsed.fields.message) ==>
              m == parsed.fields.message.value
    ensures parsed.JsonValue? && !Truthy(parsed.fields.error) && !Truthy(parsed.fields.message) ==>
              m == StatusMessage(status, statusText)
    ensures !parsed.JsonValue? && status == 404 ==> m == NotFoundMessage
    ensures !parsed.JsonValue? && status != 404 ==>
              m == StatusMessage(status, if statusText != [] then statusText else body)
  {
    match parsed
    case JsonValue(fields) =>
      if Truthy(fields.error) then fields.error.value
      else if Truthy(fields.message) then fields.message.value
      else StatusMessage(status, statusText)
    case _ =>
      if status == 404 then NotFoundMessage
      else StatusMessage(status, if statusText != [] then statusText else body)
  }

  // ---------------------------------------------------------------------------
  // Notifications and the event log

  datatype Toast = Toast(title: string, description: string, destructive: bool)

  /** The notification of each pre-flight failure: destructive, with a title and a description. */
  function GuardToast(failure: GuardFailure): (t: Toast)
    ensures t.destructive && t.title != [] && t.description != []
  {
    match failure
    case NoText => Toast("No text provided", "Please enter text to analyze.", true)
    case NoApiKey => Toast("API Key required", "Please enter your IBM Watson NLU API key or enable secrets.", true)
    case NoUrl => Toast("URL required", "Please provide a valid URL for the IBM Watson NLU service.", true)
    case UnsupportedLanguage =>
      Toast("Unsupported language", "Tone analysis is only available for English and French languages.", true)
  }

  const SuccessToast := Toast("Analysis completed", "The text was successfully analyzed.", false)
  const GenericFailureMessage := "An error occurred during analysis."

  /** The failure notification carries the error's text unchanged, under one fixed title. */
  function FailureToast(description: string): (t: Toast)
    ensures t.destructive && t.description == description
  {
    Toast("Analysis failed", description, true)
  }

  /** Success is never reported with a failure notification, and the reverse. */
  lemma SuccessDiffersFromFailure(description: string)
    ensures !SuccessToast.destructive && SuccessToast != FailureToast(description)
  {
  }

  /** The observable steps of `handleAnalyze`, in order. */
  datatype Event =
    | ApiKeyRead
    | UrlRead
    | AuthTypeRead
    | AnalyzingSet(on: bool)
    | StatsUpdated(stats: InputManagement.TextStats)
    | RequestSent(request: Request)
    | ResultsStored
    | Notified(toast: Toast)

  /**
   * What follows the request: on delivery the results are stored and a
   * success notification shown; otherwise one failure notification whose
   * description is the error's message (the cascade's message after an HTTP
   * error), or a generic text for a thrown value that is not an Error.
   */
  function Completion<P>(outcome: FetchOutcome<P>, parse: string -> ParsedBody): (events: seq<Event>)
    ensures (ResultsStored in events) <==> outcome.Delivered?
    ensures events != [] && events[|events| - 1].Notified?
    ensures events[|events| - 1].toast.destructive <==> !outcome.Delivered?
    ensures forall i :: 0 <= i < |events| - 1 ==> !events[i].Notified?
    ensures outcome.Delivered? ==> events[|events| - 1].toast == SuccessToast
    ensures outcome.HttpError? ==>
              events[|events| - 1].toast == FailureToast(HttpErrorMessage(outcome.status, outcome.statusText, outcome.body,
                                                                          parse(outcome.body)))
    ensures outcome.HttpError? ==> events[|events| - 1].toast.description != []
    ensures outcome.Threw? ==>
              events[|events| - 1].toast == FailureToast(if outcome.isError then outcome.message else GenericFailureMessage)
  {
    match outcome
    case Delivered(_) => [ResultsStored, Notified(SuccessToast)]
    case HttpError(status, statusText, body) =>
      [Notified(FailureToast(HttpErrorMessage(status, statusText, body, parse(body))))]
    case Threw(isError, message) =>
      [Notified(FailureToast(if isError then message else GenericFailureMessage))]
  }

  // ---------------------------------------------------------------------------
  // The hook's state

  class Analyzer<P> {
    var isAnalyzing: bool
    var results: Option<P>
    var log: seq<Event>

    constructor ()
      ensures !isAnalyzing && results == None && log == []
    {
      isAnalyzing := false;
      results := None;
      log := [];
    }

    /**
     * `handleAnalyze`. On a pre-flight failure exactly one notification is
     * added (after the two credential reads unless the text is empty), no
     * request is sent and no state changes. Otherwise the flag is raised and
     * the statistics recomputed; then either the Authorization header cannot
     * be encoded (a key outside Latin-1), which is reported as a failure with
     * no request, or the request is built and sent and its outcome handled.
     * Either way the flag ends lowered, and the results change only on
     * delivery.
     */
    method HandleAnalyze(text: string, features: Features, limits: Limits, language: string, toneModel: string,
                         credentials: Credentials.CredentialsConfig, input: InputManagement.InputState,
                         env: Environment<P>)
      returns (sent: Option<Request>)
      modifies this, input`textStats
      ensures text == [] ==> log == old(log) + [Notified(GuardToast(NoText))]
      ensures var failure := Preflight(text, credentials.CurrentApiKey(), credentials.CurrentUrl(), features, language);
        failure.Some? ==>
          && sent == None
          && (text != [] ==> log == old(log) + [ApiKeyRead, UrlRead, Notified(GuardToast(failure.value))])
          && isAnalyzing == old(isAnalyzing)
          && results == old(results)
          && input.textStats == old(input.textStats)
      ensures var failure := Preflight(text, credentials.CurrentApiKey(), credentials.CurrentUrl(), features, language);
        failure.None? ==>
          && !isAnalyzing
          && input.textStats == input.calculate(text)
          && (sent.Some? <==> IsLatin1(credentials.CurrentApiKey()))
      ensures var failure := Preflight(text, credentials.CurrentApiKey(), credentials.CurrentUrl(), features, language);
        var header := AuthorizationHeader(credentials.AuthType(), credentials.CurrentApiKey(), env.base64);
        failure.None? && header.None? ==>
          && sent == None
          && results == old(results)
          && log == old(log) + [ApiKeyRead, UrlRead]
                    + [AnalyzingSet(true), StatsUpdated(input.calculate(text)), AuthTypeRead,
                       Notified(FailureToast(env.encodingErrorMessage)), AnalyzingSet(false)]
      ensures var failure := Preflight(text, credentials.CurrentApiKey(), credentials.CurrentUrl(), features, language);
        var header := AuthorizationHeader(credentials.AuthType(), credentials.CurrentApiKey(), env.base64);
        failure.None? && header.Some? ==>
          && sent.Some?
          && RequestFor(sent.value, text, features, limits, language, toneModel, credentials.CurrentUrl(), header.value)
          && results == (if env.fetch(sent.value).Delivered? then Some(env.fetch(sent.value).payload) else old(results))
          && log == old(log) + [ApiKeyRead, UrlRead]
                    + [AnalyzingSet(true), StatsUpdated(input.calculate(text)), AuthTypeRead, RequestSent(sent.value)]
                    + Completion(env.fetch(sent.value), env.parse)
                    + [AnalyzingSet(false)]
    {
      if text == [] {
        log := log + [Notified(GuardToast(NoText))];
        return None;
      }
      var apiKey := credentials.CurrentApiKey();
      var url := credentials.CurrentUrl();
      log := log + [ApiKeyRead, UrlRead];
      var failure := Preflight(text, apiKey, url, features, language);
      if failure.Some? {
        log := log + [Notified(GuardToast(failure.value))];
        return None;
      }
      ConfiguredAuthIsBasic(credentials, apiKey, env.base64);
      sent := Run(text, features, limits, language, toneModel, apiKey, url, credentials, input, env);
    }

    /** The part of `handleAnalyze` after the pre-flight checks have passed. */
    method Run(text: string, features: Features, limits: Limits, language: string, toneModel: string,
               apiKey: string, url: string,
               credentials: Credentials.CredentialsConfig, input: InputManagement.InputState, env: Environment<P>)
      returns (request: Option<Request>)
      modifies this, input`textStats
      ensures !isAnalyzing
      ensures input.textStats == input.calculate(text)
      ensures var header := AuthorizationHeader(credentials.AuthType(), apiKey, env.base64);
        header.None? ==>
          && request == None
          && results == old(results)
          && log == old(log)
                    + [AnalyzingSet(true), StatsUpdated(input.calculate(text)), AuthTypeRead,
                       Notified(FailureToast(env.encodingErrorMessage)), AnalyzingSet(false)]
      ensures var header := AuthorizationHeader(credentials.AuthType(), apiKey, env.base64);
        header.Some? ==>
          && request.Some?
          && RequestFor(request.value, text, features, limits, language, toneModel, url, header.value)
          && results == (if env.fetch(request.value).Delivered? then Some(env.fetch(request.value).payload) else old(results))
          && log == old(log)
                    + [AnalyzingSet(true), StatsUpdated(input.calculate(text)), AuthTypeRead, RequestSent(request.value)]
                    + Completion(env.fetch(request.value), env.parse)
                    + [AnalyzingSet(false)]
    {
      isAnalyzing := true;
      log := log + [AnalyzingSet(true)];
      var stats := input.UpdateTextStats(text);
      log := log + [StatsUpdated(stats)];

      var params := BuildFeaturesParams(features, limits, toneModel);
      var body := RequestBody(text, params, language);

      var authType := credentials.AuthType();
      log := log + [AuthTypeRead];
      var headers := map["Content-Type" := JsonContentType];
      var authorization := AuthorizationHeader(authType, apiKey, env.base64);
      if authorization.None? {
        // `btoa` threw inside the try: caught, reported, and the flag lowered.
        log := log + [Notified(FailureToast(env.encodingErrorMessage)), AnalyzingSet(false)];
        isAnalyzing := false;
        return None;
      }
      headers := headers["Authorization" := authorization.value];
      var sent := Request(url, headers, body);
      log := log + [RequestSent(sent)];
      assert log == old(log) + [AnalyzingSet(true), StatsUpdated(stats), AuthTypeRead, RequestSent(sent)];

      ghost var sentLog := log;
      Complete(env.fetch(sent), env.parse);
      isAnalyzing := false;
      log := log + [AnalyzingSet(false)];
      assert log == sentLog + Completion(env.fetch(sent), env.parse) + [AnalyzingSet(false)];
      request := Some(sent);
    }

    /** Handles what the network call gave back: store and notify, or notify the failure. */
    method Complete(outcome: FetchOutcome<P>, parse: string -> ParsedBody)
      modifies this`results, this`log
      ensures results == (if outcome.Delivered? then Some(outcome.payload) else old(results))
      ensures log == old(log) + Completion(outcome, parse)
    {
      match outcome {
        case Delivered(payload) =>
          results := Some(payload);
          log := log + [ResultsStored, Notified(SuccessToast)];
        case HttpError(status, statusText, errorText) =>
          var message := HttpErrorMessage(status, statusText, errorText, parse(errorText));
          log := log + [Notified(FailureToast(message))];
        case Threw(isError, message) =>
          log := log + [Notified(FailureToast(if isError then message else GenericFailureMessage))];
      }
    }
  }
}
