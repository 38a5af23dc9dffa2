# Watson Insight Explorer: analysis hooks in Dafny

This project models the three React hooks behind the text-analysis screen of
Watson Insight Explorer:

- **`useAnalysisExecution`** (`analysis_execution.dfy`, module `AnalysisExecution`).
  `handleAnalyze` works in this order:
  1. It runs the pre-flight checks in order: text, API key, URL, tone language.
  2. It raises `isAnalyzing` and recomputes the text statistics.
  3. It fills `featuresParams` one enabled feature at a time.
  4. It wraps those params with the text and language into the request body.
  5. It chooses the `Authorization` header. Under IAM the key goes through `btoa`, which throws for a character above U+00FF; that failure is reported and no request is sent.
  6. It sends the request. After a non-ok response it picks the error message through a fallback cascade.
  7. It stores `results` on success, shows one notification and lowers `isAnalyzing`, whatever the outcome of steps 5 and 6. The statistics function of step 2 is assumed not to throw; see "## Left out".

  The hook's state is the class `Analyzer`. Its `log` field records the
  observable steps of each call, in order: credential reads, flag changes,
  the statistics update, the request sent, the results stored and the
  notification shown.
- **`useCredentialsConfig`** (`credentials_config.dfy`, module `Credentials`).
  - The class `CredentialsConfig` holds API key, URL, region and instance id.
  - Session storage is a `map<string, string>`.
  - Fields are initialised from storage, falling back to defaults.
  - A field is written back only when non-empty.
  - The accessors are `getCurrentApiKey`, `getCurrentUrl` (the endpoint derived from region and instance id unless the region is `"custom"`) and `getAuthType`.
- **`useInputManagement`** (`input_management.dfy`, module `InputManagement`).
  - The class `InputState` holds text, input method, target keywords and statistics.
  - `updateTextStats` stores the statistics it returns.
  - `getTargetKeywordsList` splits the keyword string on commas, trims each piece and drops the empty ones.

Two support modules complete the project:

- `js_strings.dfy` (module `JsStrings`) gives JavaScript's `String.prototype.trim`, with its whitespace set, and `split` on one character. It also gives the decimal rendering of a status code.
- `wrappers.dfy` defines `Option`.

The network call, `JSON.parse` and the base64 encoding itself are not modelled. `HandleAnalyze` receives them as the fields of an `Environment` value. `calculateTextStats` is the `calculate` function that `InputState` is constructed with.

## Model

| member | source | states |
|---|---|---|
| AnalysisExecution.Preflight | src/components/WatsonAnalyzer/hooks/useAnalysisExecution.ts:35-74 | empty text always fails as NoText; else a missing key as NoApiKey; else a missing URL as NoUrl; the language failure happens exactly when everything else passes, classification is on and the language is neither "en" nor "fr"; no failure exactly when all checks pass |
| AnalysisExecution.FirstFailure | src/components/WatsonAnalyzer/hooks/useAnalysisExecution.ts:35-74 | reference for an ordered check chain: no failure iff every check passes, otherwise the failure of a failing check all of whose predecessors pass |
| AnalysisExecution.PreflightIsFirstFailure | src/components/WatsonAnalyzer/hooks/useAnalysisExecution.ts:35-74 | the pre-flight result is the first failing check of the chain text, API key, URL, tone language, so a later check is reached only when all earlier ones pass |
| AnalysisExecution.EmptyTextDecidesAlone | src/components/WatsonAnalyzer/hooks/useAnalysisExecution.ts:35-46 | with empty text the outcome is NoText whatever the credentials, features and language |
| AnalysisExecution.UrlCheckOnlyForCustomRegion | src/components/WatsonAnalyzer/hooks/useCredentialsConfig.ts:89-92 | outside the "custom" region the URL check never fails, because the derived endpoint is never empty |
| AnalysisExecution.EnabledFeatures | src/components/WatsonAnalyzer/hooks/useAnalysisExecution.ts:85-119 | a feature name is in the set exactly when its flag is on |
| AnalysisExecution.BuildFeaturesParams | src/components/WatsonAnalyzer/hooks/useAnalysisExecution.ts:83-119 | the params hold exactly the enabled features; keywords and entities carry their limit and sentiment true; concepts and categories carry only their limit; relations carries nothing; classifications carries only the tone model |
| AnalysisExecution.ParamsDetermined | src/components/WatsonAnalyzer/hooks/useAnalysisExecution.ts:83-119 | two payloads meeting that description for the same inputs are equal, so it fixes the payload completely |
| AnalysisExecution.IsLatin1 | src/components/WatsonAnalyzer/hooks/useAnalysisExecution.ts:138 | the strings `btoa` accepts: every character is at most U+00FF |
| AnalysisExecution.AuthorizationHeader | src/components/WatsonAnalyzer/hooks/useAnalysisExecution.ts:127-141 | under auth type "iam" the header is "Basic " and the encoding of "apikey:" plus the key, and it exists exactly when the key has no character above U+00FF (otherwise `btoa` throws); under any other auth type it is "Bearer " and the key |
| AnalysisExecution.ConfiguredAuthIsBasic | src/components/WatsonAnalyzer/hooks/useCredentialsConfig.ts:94 | with the auth type the credentials hook reports, the header uses the Basic scheme and can be built exactly when the key is Latin-1 |
| AnalysisExecution.Truthy | src/components/WatsonAnalyzer/hooks/useAnalysisExecution.ts:156 | the truthiness `||` tests on a property: present and not the empty string |
| AnalysisExecution.HttpErrorMessage | src/components/WatsonAnalyzer/hooks/useAnalysisExecution.ts:149-164 | a parsed body's truthy `error` wins, then its truthy `message`, then "Error status: statusText"; an unparsable or null body gives the fixed 404 message for status 404, otherwise "Error status: " with the status text or, when that is empty, the raw body; the message is never empty |
| AnalysisExecution.StatusMessage | src/components/WatsonAnalyzer/hooks/useAnalysisExecution.ts:156-161 | "Error ", the status in decimal, ": " and the detail, in that order and nothing else |
| AnalysisExecution.StatusMessageNamesStatus | src/components/WatsonAnalyzer/hooks/useAnalysisExecution.ts:156-161 | the digits of a status message read back as the status |
| AnalysisExecution.Completion | src/components/WatsonAnalyzer/hooks/useAnalysisExecution.ts:167-184 | results are stored iff the response was delivered; the last event is the only notification; it is the success notification on delivery, otherwise a destructive failure notification whose description is the cascade's message after an HTTP error, the thrown Error's message, or the generic text for a thrown non-Error |
| AnalysisExecution.GuardToast | src/components/WatsonAnalyzer/hooks/useAnalysisExecution.ts:36-72 | each pre-flight failure is reported by a destructive notification with a non-empty title and description |
| AnalysisExecution.FailureToast | src/components/WatsonAnalyzer/hooks/useAnalysisExecution.ts:180-184 | the failure notification is destructive and carries the error text unchanged as its description |
| AnalysisExecution.SuccessDiffersFromFailure | src/components/WatsonAnalyzer/hooks/useAnalysisExecution.ts:170-184 | the success notification is not destructive and differs from every failure notification |
| AnalysisExecution.Analyzer.constructor | src/components/WatsonAnalyzer/hooks/useAnalysisExecution.ts:31-32 | not analysing, no results, empty log |
| AnalysisExecution.Analyzer.HandleAnalyze | src/components/WatsonAnalyzer/hooks/useAnalysisExecution.ts:34-187 | on empty text only the NoText notification, with no credential read; on any other check failure two credential reads and that one notification; on any failure no request, and flag, results and statistics unchanged; once the checks pass the statistics are recomputed, the flag ends lowered, and a request is sent iff the key is Latin-1; when the header cannot be encoded one failure notification with the encoding error's message and results unchanged; otherwise the request carries the URL, JSON content type, the header and exactly the text, payload and language, and results change only on delivery; the log lists every step in order |
| AnalysisExecution.Analyzer.Run | src/components/WatsonAnalyzer/hooks/useAnalysisExecution.ts:77-187 | the steps after the checks pass, with the same header-failure, request, state and log guarantees |
| AnalysisExecution.Analyzer.Complete | src/components/WatsonAnalyzer/hooks/useAnalysisExecution.ts:149-184 | results set to the payload only on delivery; the log grows by the completion events |
| Credentials.StorageKeysDistinct | src/components/WatsonAnalyzer/hooks/useCredentialsConfig.ts:28-33 | the four fields have four different storage keys |
| Credentials.StorageKey | src/components/WatsonAnalyzer/hooks/useCredentialsConfig.ts:28-33 | every field has a non-empty storage key |
| Credentials.Default | src/components/WatsonAnalyzer/hooks/useCredentialsConfig.ts:37-51 | the region defaults to "eu-de", which is non-empty; every other field defaults to "" |
| Credentials.StoredOr | src/components/WatsonAnalyzer/hooks/useCredentialsConfig.ts:37-51 | a present non-empty stored value is used, otherwise the default |
| Credentials.Persist | src/components/WatsonAnalyzer/hooks/useCredentialsConfig.ts:57-71 | a non-empty value is stored under its key; an empty value leaves the store unchanged; no other key is added, removed or changed |
| Credentials.PersistStored | src/components/WatsonAnalyzer/hooks/useCredentialsConfig.ts:57-71 | writing back what is already stored, or an empty value, changes nothing |
| Credentials.PersistenceIsOneWay | src/components/WatsonAnalyzer/hooks/useCredentialsConfig.ts:57-71 | over any sequence of field writes no key disappears, and every entry is either its old value or a non-empty value that one of the writes put under its own field's storage key |
| Credentials.EmptyWritesAreIgnored | src/components/WatsonAnalyzer/hooks/useCredentialsConfig.ts:58-70 | any sequence of empty writes leaves the store as it was |
| Credentials.DerivedEndpoint | src/components/WatsonAnalyzer/hooks/useCredentialsConfig.ts:91 | the template literal: scheme, region, host, instance id and versioned path, concatenated |
| Credentials.DerivedEndpointLayout | src/components/WatsonAnalyzer/hooks/useCredentialsConfig.ts:90-91 | the endpoint is the fixed scheme, the region, the fixed host, the instance id and the fixed versioned path, in that order and nothing else |
| Credentials.EndpointDeterminesRegionAndInstance | src/components/WatsonAnalyzer/hooks/useCredentialsConfig.ts:90-91 | equal endpoints from regions of equal length have the same region and instance id |
| Credentials.EndpointUrl | src/components/WatsonAnalyzer/hooks/useCredentialsConfig.ts:89-93 | a non-custom region gives the derived endpoint, which is non-empty; "custom" gives the stored url |
| Credentials.CustomRegionIgnoresInstance | src/components/WatsonAnalyzer/hooks/useCredentialsConfig.ts:90-92 | with region "custom" the instance id does not matter and the url is returned verbatim |
| Credentials.CredentialsConfig.constructor | src/components/WatsonAnalyzer/hooks/useCredentialsConfig.ts:37-71 | each field is its stored non-empty value or its default ("eu-de" for region, "" otherwise); the region is non-empty; mount writes the default region back when none was stored and changes nothing else; the store mirrors every non-empty field |
| Credentials.CredentialsConfig.Set | src/components/WatsonAnalyzer/hooks/useCredentialsConfig.ts:57-71 | the field takes the value, the other fields keep theirs, the store changes only under the field's key and only for a non-empty value, and the store keeps mirroring the fields |
| Credentials.CredentialsConfig.CurrentApiKey | src/components/WatsonAnalyzer/hooks/useCredentialsConfig.ts:88 | the stored API key, unchanged |
| Credentials.CredentialsConfig.CurrentUrl | src/components/WatsonAnalyzer/hooks/useCredentialsConfig.ts:89-93 | the derived (non-empty) endpoint for a non-custom region, the stored url for "custom" |
| Credentials.CredentialsConfig.AuthType | src/components/WatsonAnalyzer/hooks/useCredentialsConfig.ts:94 | always "iam" |
| InputManagement.TrimAll | src/components/WatsonAnalyzer/hooks/useInputManagement.ts:35 | same length; each element is the trim of the piece at the same position |
| InputManagement.DropEmpty | src/components/WatsonAnalyzer/hooks/useInputManagement.ts:36 | no longer than the input; every kept element is non-empty and comes from the input |
| InputManagement.DropEmptySelects | src/components/WatsonAnalyzer/hooks/useInputManagement.ts:36 | the kept elements are the input's non-empty elements, in order: strictly increasing positions, and a position is kept iff its element is non-empty |
| InputManagement.KeywordsList | src/components/WatsonAnalyzer/hooks/useInputManagement.ts:32-37 | every keyword is non-empty, has no leading or trailing whitespace and has no comma; at most one keyword more than there are commas |
| InputManagement.KeywordsListFollowsSegments | src/components/WatsonAnalyzer/hooks/useInputManagement.ts:33-36 | keyword k is the trim of comma segment idx[k], for strictly increasing idx; a segment contributes iff its trim is non-empty |
| InputManagement.KeywordsListWithoutComma | src/components/WatsonAnalyzer/hooks/useInputManagement.ts:33-36 | without a comma the list is empty when the trimmed input is empty, else the single trimmed input |
| InputManagement.InputState.constructor | src/components/WatsonAnalyzer/hooks/useInputManagement.ts:13-22 | text "", input method text, keywords "", all counts zero |
| InputManagement.InputState.SetText | src/components/WatsonAnalyzer/hooks/useInputManagement.ts:13 | the text becomes the given value; nothing else changes |
| InputManagement.InputState.SetInputMethod | src/components/WatsonAnalyzer/hooks/useInputManagement.ts:14 | the input method becomes the given value; nothing else changes |
| InputManagement.InputState.SetTargetKeywords | src/components/WatsonAnalyzer/hooks/useInputManagement.ts:15 | the keyword string becomes the given value; nothing else changes |
| InputManagement.InputState.UpdateTextStats | src/components/WatsonAnalyzer/hooks/useInputManagement.ts:25-29 | returns the statistics of the text and stores exactly the value it returns |
| InputManagement.InputState.TargetKeywordsList | src/components/WatsonAnalyzer/hooks/useInputManagement.ts:32-37 | the keyword list of the current keyword string; every element non-empty and trimmed |
| JsStrings.WhitespaceIsJsSet | src/components/WatsonAnalyzer/hooks/useInputManagement.ts:35 | the whitespace that trim removes is exactly the listed ECMAScript WhiteSpace and LineTerminator code points |
| JsStrings.Trim | src/components/WatsonAnalyzer/hooks/useInputManagement.ts:35 | the result starts and ends with a non-whitespace character, or is empty |
| JsStrings.TrimSlice | src/components/WatsonAnalyzer/hooks/useInputManagement.ts:35 | the trim is a contiguous slice of the input, with only whitespace before and after it |
| JsStrings.TrimOfPadded | src/components/WatsonAnalyzer/hooks/useInputManagement.ts:35 | trimming whitespace around an already trimmed string returns exactly that string, so the trim is unique |
| JsStrings.TrimIdempotent | src/components/WatsonAnalyzer/hooks/useInputManagement.ts:35 | trimming twice is trimming once |
| JsStrings.TrimKeepsAbsent | src/components/WatsonAnalyzer/hooks/useInputManagement.ts:35 | trimming adds no character, so a comma-free piece stays comma-free |
| JsStrings.Split | src/components/WatsonAnalyzer/hooks/useInputManagement.ts:34 | one more piece than there are separators; no piece contains the separator |
| JsStrings.CountCharZero | src/components/WatsonAnalyzer/hooks/useInputManagement.ts:34 | the separator count is zero iff the separator does not occur |
| JsStrings.JoinSplit | src/components/WatsonAnalyzer/hooks/useInputManagement.ts:34 | joining the pieces with the separator gives back the input |
| JsStrings.SplitJoin | src/components/WatsonAnalyzer/hooks/useInputManagement.ts:34 | splitting a join of separator-free pieces gives back the pieces |
| JsStrings.SplitNoSeparator | src/components/WatsonAnalyzer/hooks/useInputManagement.ts:34 | a string without the separator splits into itself alone |
| JsStrings.NatToStringRoundTrip | src/components/WatsonAnalyzer/hooks/useAnalysisExecution.ts:156 | the decimal rendering of a status reads back as that status |
| JsStrings.NatToString | src/components/WatsonAnalyzer/hooks/useAnalysisExecution.ts:156 | the decimal rendering of a status is non-empty, all digits, and starts with 0 only for zero |

## Left out

- The HTTP transport is not modelled. This covers `fetch`, `response.text()` and `response.json()`. An abstract `fetch` in the `Environment` returns one of three outcomes:
  - a delivered payload;
  - a non-ok status with its status text and body;
  - a thrown value. This includes a body that fails to parse after an ok status. It is marked as an `Error` instance or not, and carries its message.
- `JSON.parse` is an abstract function. It returns one of: not JSON; the JSON `null`; or a value with optional `error`/`message` strings. Reading a property of `null` throws inside the same `try`, so `null` takes the same branch as unparsable text.
- `btoa` is an abstract function on the Latin-1 strings it accepts, so the Basic credential is `base64("apikey:" + key)` for an uninterpreted `base64`. The rule that it throws for a character above U+00FF is modelled. The thrown error's message is host-defined and is taken from the `Environment`.
- AnalysisExecution.HttpErrorMessage: `error` and `message` are modelled as strings. A truthy non-string value, such as an object or a number, is converted to text by `new Error(...)`, and that conversion is not modelled.
- `toast` and `console.log` are not modelled as calls. Notifications are `Notified` events in the log, with title, description and whether they are destructive. Console output is not modelled.
- React's `useState`/`useEffect` are replaced by class fields. A setter and its persistence effect are one call, `CredentialsConfig.Set`.
- The four mount-time effects are folded into the `CredentialsConfig` constructor.
- `sessionStorage` is a `map<string, string>`.
- Re-entrant or overlapping calls of `handleAnalyze` are not modelled. Each call runs to completion, including the awaited network call, before anything else happens.
- AnalysisExecution.Analyzer.HandleAnalyze: `calculateTextStats` is assumed not to throw. In the source, the flag is raised and the statistics are computed before the `try` block. A throw there would leave `isAnalyzing` raised, show no notification and reject the call. The model's `calculate` is total, so it promises the flag is lowered on every path.
- `calculateTextStats` is the uninterpreted `calculate` function of `InputState`. Its implementation file is not part of this model.
- `credentialsFileExists` and the unused `SECRETS` object in `useCredentialsConfig.ts` are not modelled, because no logic reads them.
- Setting the input method to anything other than text or file is not modelled, because the hook's state type admits only those two.
- The tone-result presentation component and the input-method toggle component are not part of this model. They are presentation only.
- JavaScript strings are sequences of UTF-16 code units. The model's `string` is a sequence of Unicode scalar values, so a string holding a lone surrogate cannot be represented. On every string the model can represent, `split(',')`, `trim` and the Latin-1 test behave as in JavaScript: the separator, the whitespace set and U+00FF are all in the Basic Multilingual Plane and none is a surrogate.
- Status codes are unbounded naturals. `response.ok` means a status in 200..299, and the model does not constrain the status that an `HttpError` outcome carries.
