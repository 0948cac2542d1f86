# TrendRadar AI client: configuration and endpoint logic, verified

This project models the deterministic part of TrendRadar's unified AI client
(`AIClient` in `trendradar/ai/client.py`). The client is a thin layer over
LiteLLM. The modelled part covers:

- how the client is built from its configuration dictionary, with defaults and
  the `AI_API_KEY` fallback for the key;
- how a Gemini model on a custom endpoint is rewritten. The endpoint is
  normalised (trailing slashes dropped, `/v1` appended when no version or API
  path is named). When the endpoint looks OpenAI-compatible, `gemini/` in the
  model name becomes `openai/`;
- how `validate_config` checks the configuration, in order, and reports the
  first failure;
- how `chat` assembles the keyword arguments of the completion request, up to
  the call itself.

Files:

- `text.dfy` (module `Text`): the Python string operations the client uses
  (`startswith`, `endswith`, `in`, `rstrip`, `lower`, `replace`), with lemmas
  about `replace`.
- `values.dfy` (module `Values`): Python values that pass through the request
  parameters, their truthiness, and `Option`/`Result`.
- `client.dfy` (module `AIClient`): the client itself.

The client's fields are written once, by the constructor, and never changed.
The client is therefore a datatype `Client` built by the function `NewClient`.
`chat` builds its parameter dictionary step by step, through conditional
insertions and a loop over the keyword arguments that adds only missing keys.
That is the method `BuildChatParams`. It updates a local map, its loop carries
invariants, and it is proved equal to the specification function `ChatParams`.
The lemmas about `ChatParams` state what the request contains.

Two consequences of the code, as the lemmas state them:

- The docstring of `chat` says that keyword arguments override the defaults.
  In the code, only `temperature`, `timeout`, `num_retries` and `max_tokens`
  can be overridden. The model, the messages, and a configured key, endpoint
  or fallback list cannot (`ChatParamsPinned`).
- A `max_tokens` keyword argument of 0 or less is still sent. The positivity
  test at line 78 leaves it out, and the merge loop at lines 86-88 then adds
  it (`ChatParamsOverridable`).

`_validate_gemini_endpoint` accepts `https://`, but normalising that endpoint
removes the scheme's own slashes and gives `https:/v1`, which the validator
rejects (`NormalizeCanBreakScheme`); so does `https:///`. An endpoint that
has something other than slashes after its scheme stays valid
(`NormalizeKeepsScheme`).

## Model

| member | source | states |
|---|---|---|
| `AIClient.NewClient` | trendradar/ai/client.py:33-40 | a present setting is kept as given; an absent one takes its default (model `deepseek/deepseek-chat`, empty endpoint, temperature 1.0, max_tokens 5000, timeout 120, retries 2, fallbacks `[]`); a non-empty configured key wins, otherwise the key is `AI_API_KEY`'s value; the key is empty only when neither supplies one |
| `AIClient.NormalizeGeminiEndpoint` | trendradar/ai/client.py:137-152 | empty stays empty; a non-empty endpoint comes back without a trailing `/`, naming `/v1` or ending in `/chat`, `/completions` or `/generate`; it is the slash-stripped input when that already names one of them, else the stripped input plus `/v1` |
| `AIClient.BetaNamesVersion` | trendradar/ai/client.py:144 | any string containing `/v1beta` contains `/v1`, so the second test never decides anything |
| `AIClient.NormalizeIdempotent` | trendradar/ai/client.py:137-152 | normalising twice gives the same endpoint as normalising once |
| `AIClient.IndicatorsReduce` | trendradar/ai/client.py:166-174 | "one of the five indicators occurs" is equivalent to one of the last four occurring: `/v1/chat/completions` is covered by `/chat/completions` |
| `AIClient.ShouldUseOpenAIProtocol` | trendradar/ai/client.py:154-174 | true exactly when the lower-cased endpoint contains `/v1/completions`, `/chat/completions`, `/openai` or `openai-`; the model name plays no part |
| `AIClient.ProcessGeminiConfig` | trendradar/ai/client.py:96-125 | identity when the model does not start with `gemini/` or the endpoint is empty; otherwise the endpoint is normalised; the model changes exactly when the protocol detector fires, and then it is the replace-all result, starts with `openai/`, contains no `gemini/` and keeps its length |
| `Text.ReplaceAllRemovesAll` | trendradar/ai/client.py:119 | replacing every `gemini/` by `openai/` leaves no `gemini/` anywhere: a replacement that cannot start or complete an occurrence removes them all |
| `Text.ReplaceAll` | trendradar/ai/client.py:119 | `str.replace`, left to right without overlap: a replacement of the pattern's length keeps the string's length, and an input that starts with the pattern yields a result that starts with the replacement |
| `Text.ReplaceAllAbsent` | trendradar/ai/client.py:119 | a string without the pattern is returned unchanged |
| `Text.RStrip` | trendradar/ai/client.py:141 | the result is a prefix of the input, does not end in the stripped character, and only that character follows it in the input |
| `Text.Lower` | trendradar/ai/client.py:174 | `str.lower` on ASCII letters: same length, each character lower-cased on its own |
| `AIClient.ValidateGeminiEndpoint` | trendradar/ai/client.py:211-232 | true exactly when the endpoint is empty or starts with `http://` or `https://`; padding with `/` does not affect the answer |
| `AIClient.NormalizeKeepsScheme` | trendradar/ai/client.py:137-152 | an endpoint accepted by the validator with something other than slashes after its scheme keeps its scheme, and its acceptance, after normalisation |
| `AIClient.NormalizeCanBreakScheme` | trendradar/ai/client.py:141-150 | `https://` is accepted, normalises to `https:/v1`, and that is rejected |
| `AIClient.ValidateConfig` | trendradar/ai/client.py:176-209 | ok exactly when the model is non-empty, the key is non-empty, the model contains `/`, and a `gemini/` model's endpoint is acceptable; the message is empty exactly when ok |
| `AIClient.FirstFailing` | trendradar/ai/client.py:183-209 | no check is reported exactly when every check passes; a reported check is one of them and fails |
| `AIClient.FirstFailingIsFirst` | trendradar/ai/client.py:183-209 | every check before the reported one passes |
| `AIClient.ValidateConfigReportsFirstFailure` | trendradar/ai/client.py:183-209 | `validate_config` equals running its four checks in order and returning the first failing check's message, or `(True, "")` |
| `AIClient.DefaultClientNeedsOnlyKey` | trendradar/ai/client.py:33-34 | a client built from an empty configuration is valid exactly when `AI_API_KEY` is non-empty |
| `AIClient.ValidModelKeepsProvider` | trendradar/ai/client.py:108-122 | for a valid configuration, the model sent after the Gemini rewrite still contains `/` |
| `Values.Truthy` | trendradar/ai/client.py:78 | Python truthiness (used at client.py:34, 69, 73, 78 and 82): a value is false exactly when it is `None`, `False`, zero, or an empty string, list or dictionary |
| `AIClient.KwargOr` | trendradar/ai/client.py:63-65 | `kwargs.get(key, default)` (also at client.py:77): the keyword argument when present, the default otherwise |
| `AIClient.MaxTokensIncluded` | trendradar/ai/client.py:77-79 | `max_tokens` is written exactly when it is truthy, a number and positive; the comparison raises exactly when it is truthy and not a number |
| `AIClient.MergeMissing` | trendradar/ai/client.py:86-88 | the merged keys are the union; entries already present keep their values; the others take the keyword argument's value |
| `AIClient.MergeMissingDetermined` | trendradar/ai/client.py:86-88 | those three facts determine the merged map |
| `AIClient.BaseParams` | trendradar/ai/client.py:60-83 | the parameters before the merge: fails exactly when the `max_tokens` in effect is truthy and not a number; otherwise it holds model, messages, temperature, timeout and retries, plus only the optional key, endpoint, max_tokens and fallbacks |
| `AIClient.ChatParams` | trendradar/ai/client.py:60-88 | the request parameters: succeeds exactly when `BaseParams` does; then every always-sent parameter and every keyword argument is present, and nothing beyond those and the optional parameters |
| `AIClient.BuildChatParams` | trendradar/ai/client.py:57-88 | the step-by-step assembly, with its loop over the keyword arguments, yields exactly `ChatParams` |
| `AIClient.ChatParamsNeverOverwrite` | trendradar/ai/client.py:86-88 | the loop over the keyword arguments replaces no entry set earlier, and every keyword argument reaches the request |
| `AIClient.ChatParamsOverridable` | trendradar/ai/client.py:63-79 | temperature, timeout and retries come from the keyword arguments when given, else from the client; a `max_tokens` keyword argument always reaches the request unchanged; without one, the client's value is sent only when a positive number |
| `AIClient.ChatParamsPinned` | trendradar/ai/client.py:60-83 | model (after the Gemini rewrite) and messages are always the client's; a configured key, endpoint or fallback list is always sent and cannot be replaced; one not configured is sent only if a keyword argument supplies it |
| `AIClient.ChatParamsFailure` | trendradar/ai/client.py:77-78 | assembly fails only when the `max_tokens` in effect is a non-empty string, list or dictionary |

## Left out

- `trendradar/ai/analyzer.py` is not part of this model. It holds the response-recovery pipeline: JSON extraction, trailing-comma repair, drift markers and required-field validation. Its implementation is not among the modelled sources. `tests/test_ai_analyzer.py` only exercises that pipeline.
- The `completion(...)` call and the reading of the response (trendradar/ai/client.py:91-94). They are a foreign LiteLLM network call, with retries, fallbacks and timeouts. The model stops at the parameters passed to it.
- The read of `AI_API_KEY` from the environment (line 34) is I/O. Its value is the parameter `envApiKey` of `NewClient`.
- Floats are `real` values. Temperature and other floats are passed through unchanged. Only `max_tokens > 0` looks at a number. NaN, infinities and rounding are not modelled.
- `Text.Lower` lowercases ASCII letters only. Python's `str.lower` also maps other Unicode letters, some of them to ASCII sequences; for example `İ` becomes `i` followed by a combining dot. The protocol detector may therefore differ from the source on non-ASCII endpoints.
- Configuration values are typed: model, key and endpoint are strings, and every other setting is any `Value`. A configuration that stores `None` or a non-string under `MODEL`, `API_KEY` or `API_BASE` is not modelled.
- The messages are an opaque `Value`. Their structure is never inspected by the client.
- The request parameters are a `map`, so Python's insertion order of the dictionary is not modelled. The merge loop visits the keyword arguments in an arbitrary order. Its result does not depend on that order, because only absent keys are added and keyword names are distinct.
- `Text.ReplaceAll` requires a non-empty pattern. Python's behaviour for an empty pattern is not modelled, because the client only replaces the constant `gemini/`.
