/** The configuration side of the unified AI client (`AIClient`): the
    settings it is built from, how it rewrites Gemini-compatible endpoints,
    how it validates itself, and the keyword arguments it assembles for one
    chat completion request. The request itself is not part of the model. */
module AIClient {
  import opened Text
  import opened Values

  // ---------------------------------------------------------------------
  // Construction

  /** The configuration dictionary handed to the constructor: one entry per
      key it reads, `None` when the key is absent. */
  datatype Settings = Settings(
    model: Option<string>,
    apiKey: Option<string>,
    apiBase: Option<string>,
    temperature: Option<Value>,
    maxTokens: Option<Value>,
    timeout: Option<Value>,
    numRetries: Option<Value>,
    fallbackModels: Option<Value>)

  const NoSettings := Settings(None, None, None, None, None, None, None, None)

  const DefaultModel := "deepseek/deepseek-chat"
  const DefaultTemperature := Float(1.0)
  const DefaultMaxTokens := Int(5000)
  const DefaultTimeout := Int(120)
  const DefaultNumRetries := Int(2)
  const DefaultFallbackModels := List([])

  /** The client's fields; they are written once, when the client is built. */
  datatype Client = Client(
    model: string,
    apiKey: string,
    apiBase: string,
    temperature: Value,
    maxTokens: Value,
    timeout: Value,
    numRetries: Value,
    fallbackModels: Value)

  /** The constructor. `envApiKey` is the value of the environment variable
      `AI_API_KEY` ("" when unset). A key from the settings wins unless it is
      missing or empty; every other entry is kept when present and takes its
      default when absent. */
  function NewClient(settings: Settings, envApiKey: string): (c: Client)
    ensures settings.apiKey.Some? && settings.apiKey.value != [] ==> c.apiKey == settings.apiKey.value
    ensures settings.apiKey.None? || settings.apiKey.value == [] ==> c.apiKey == envApiKey
    ensures c.apiKey == [] <==> (settings.apiKey.None? || settings.apiKey.value == []) && envApiKey == []
    ensures settings.model.Some? ==> c.model == settings.model.value
    ensures settings.model.None? ==> c.model == DefaultModel
    ensures settings.apiBase.Some? ==> c.apiBase == settings.apiBase.value
    ensures settings.apiBase.None? ==> c.apiBase == []
    ensures settings.temperature.Some? ==> c.temperature == settings.temperature.value
    ensures settings.temperature.None? ==> c.temperature == DefaultTemperature
    ensures settings.maxTokens.Some? ==> c.maxTokens == settings.maxTokens.value
    ensures settings.maxTokens.None? ==> c.maxTokens == DefaultMaxTokens
    ensures settings.timeout.Some? ==> c.timeout == settings.timeout.value
    ensures settings.timeout.None? ==> c.timeout == DefaultTimeout
    ensures settings.numRetries.Some? ==> c.numRetries == settings.numRetries.value
    ensures settings.numRetries.None? ==> c.numRetries == DefaultNumRetries
    ensures settings.fallbackModels.Some? ==> c.fallbackModels == settings.fallbackModels.value
    ensures settings.fallbackModels.None? ==> c.fallbackModels == DefaultFallbackModels && !Truthy(c.fallbackModels)
  {
    Client(
      settings.model.GetOr(DefaultModel),
      if settings.apiKey.Some? && settings.apiKey.value != [] then settings.apiKey.value else envApiKey,
      settings.apiBase.GetOr([]),
      settings.temperature.GetOr(DefaultTemperature),
      settings.maxTokens.GetOr(DefaultMaxTokens),
      settings.timeout.GetOr(DefaultTimeout),
      settings.numRetries.GetOr(DefaultNumRetries),
      settings.fallbackModels.GetOr(DefaultFallbackModels))
  }

  // ---------------------------------------------------------------------
  // Gemini-compatible endpoints

  const GeminiPrefix := "gemini/"
  const OpenAIPrefix := "openai/"
  const VersionSegment := "/v1"
  const VersionBetaSegment := "/v1beta"
  const ApiPathSuffixes: seq<string> := ["/chat", "/completions", "/generate"]
  const OpenAIIndicators: seq<string> :=
    ["/v1/chat/completions", "/v1/completions", "/chat/completions", "/openai", "openai-"]

  predicate EndsWithApiPath(s: string) {
    exists i | 0 <= i < |ApiPathSuffixes| :: EndsWith(s, ApiPathSuffixes[i])
  }

  /** An endpoint that already names an API version or a complete API path. */
  predicate NamesVersionOrPath(s: string) {
    Contains(s, VersionSegment) || EndsWithApiPath(s)
  }

  /** The `/v1beta` test is subsumed by the `/v1` test. */
  lemma BetaNamesVersion(s: string)
    ensures Contains(s, VersionBetaSegment) ==> Contains(s, VersionSegment)
  {
    if Contains(s, VersionBetaSegment) {
      assert VersionBetaSegment == VersionSegment + "beta";
      ContainsParts(s, VersionSegment, "beta");
    }
  }

  /** Strips every trailing `/` and appends `/v1` unless the endpoint already
      names a version or a complete API path. An empty endpoint is kept. */
  function NormalizeGeminiEndpoint(endpoint: string): (r: string)
    ensures endpoint == [] ==> r == []
    ensures endpoint != [] ==> r != [] && r[|r| - 1] != '/'
    ensures endpoint != [] ==> NamesVersionOrPath(r)
    ensures endpoint != [] ==>
      var stripped := RStrip(endpoint, '/');
      r == if NamesVersionOrPath(stripped) then stripped else stripped + VersionSegment
  {
    if endpoint == [] then endpoint
    else
      var stripped := RStrip(endpoint, '/');
      BetaNamesVersion(stripped);
      if !Contains(stripped, VersionSegment) && !Contains(stripped, VersionBetaSegment) then
        if !EndsWithApiPath(stripped) then
          ContainsAt(stripped + VersionSegment, VersionSegment, |stripped|);
          stripped + VersionSegment
        else
          stripped
      else
        stripped
  }

  /** Normalising a normalised endpoint changes nothing. */
  lemma {:induction false} NormalizeIdempotent(endpoint: string)
    ensures NormalizeGeminiEndpoint(NormalizeGeminiEndpoint(endpoint)) == NormalizeGeminiEndpoint(endpoint)
  {
    var r := NormalizeGeminiEndpoint(endpoint);
    if endpoint != [] {
      assert RStrip(r, '/') == r;
    }
  }

  /** Every indicator after the first is needed; the first is covered by the
      third, since `/v1/chat/completions` contains `/chat/completions`. */
  lemma IndicatorsReduce(lowered: string)
    ensures (exists i | 0 <= i < |OpenAIIndicators| :: Contains(lowered, OpenAIIndicators[i]))
        <==> (Contains(lowered, "/v1/completions") || Contains(lowered, "/chat/completions")
              || Contains(lowered, "/openai") || Contains(lowered, "openai-"))
  {
    if Contains(lowered, OpenAIIndicators[0]) {
      assert OpenAIIndicators[0] == "/v1" + "/chat/completions";
      ContainsParts(lowered, "/v1", "/chat/completions");
    }
    assert OpenAIIndicators[1] == "/v1/completions";
    assert OpenAIIndicators[2] == "/chat/completions";
    assert OpenAIIndicators[3] == "/openai";
    assert OpenAIIndicators[4] == "openai-";
  }

  /** Whether a custom endpoint speaks the OpenAI protocol: its lower-cased
      text contains one of the indicators. The model name plays no part. */
  function ShouldUseOpenAIProtocol(model: string, apiBase: string): (r: bool)
    ensures r <==> var lowered := Lower(apiBase);
      Contains(lowered, "/v1/completions") || Contains(lowered, "/chat/completions")
      || Contains(lowered, "/openai") || Contains(lowered, "openai-")
  {
    var lowered := Lower(apiBase);
    IndicatorsReduce(lowered);
    exists i | 0 <= i < |OpenAIIndicators| :: Contains(lowered, OpenAIIndicators[i])
  }

  /** The (model, endpoint) pair the request uses. Non-Gemini models, and
      Gemini models on the official endpoint, pass through. A Gemini model on
      a custom endpoint gets the normalised endpoint and, when that endpoint
      speaks the OpenAI protocol, every `gemini/` in its name becomes
      `openai/`. */
  function ProcessGeminiConfig(model: string, apiBase: string): (r: (string, string))
    ensures !StartsWith(model, GeminiPrefix) || apiBase == [] ==> r == (model, apiBase)
    ensures StartsWith(model, GeminiPrefix) && apiBase != [] ==> r.1 == NormalizeGeminiEndpoint(apiBase)
    ensures r.0 != model <==>
      StartsWith(model, GeminiPrefix) && apiBase != [] && ShouldUseOpenAIProtocol(model, apiBase)
    ensures r.0 != model ==>
      r.0 == ReplaceAll(model, GeminiPrefix, OpenAIPrefix) && StartsWith(r.0, OpenAIPrefix)
      && !Contains(r.0, GeminiPrefix) && |r.0| == |model|
  {
    if !StartsWith(model, GeminiPrefix) then
      (model, apiBase)
    else if apiBase != [] then
      var normalizedBase := NormalizeGeminiEndpoint(apiBase);
      if ShouldUseOpenAIProtocol(model, apiBase) then
        var openaiModel := ReplaceAll(model, GeminiPrefix, OpenAIPrefix);
        ReplaceAllRemovesAll(model, GeminiPrefix, OpenAIPrefix);
        assert openaiModel[0] == 'o' != model[0];
        (openaiModel, normalizedBase)
      else
        (model, normalizedBase)
    else
      (model, apiBase)
  }

  // ---------------------------------------------------------------------
  // Validation

  const HttpScheme := "http://"
  const HttpsScheme := "https://"

  /** A custom endpoint is acceptable when it is empty (the official endpoint
      is used) or starts with `http://` or `https://`. */
  function ValidateGeminiEndpoint(endpoint: string): (ok: bool)
    ensures ok <==> endpoint == [] || StartsWith(endpoint, HttpScheme) || StartsWith(endpoint, HttpsScheme)
  {
    if endpoint == [] then
      true
    else if !(StartsWith(endpoint, HttpScheme) || StartsWith(endpoint, HttpsScheme)) then
      false
    else
      // `_validate_gemini_endpoint` pads the endpoint with a trailing `/`
      // (client.py:229-230); like `padded` here, that value is never used,
      // so the answer does not depend on it
      var padded := if EndsWith(endpoint, "/") then endpoint else endpoint + "/";
      true
  }

  /** Normalising an accepted endpoint keeps it accepted, provided something
      other than slashes follows the scheme. */
  lemma NormalizeKeepsScheme(endpoint: string, scheme: string)
    requires scheme == HttpScheme || scheme == HttpsScheme
    requires StartsWith(endpoint, scheme) && |RStrip(endpoint, '/')| >= |scheme|
    ensures StartsWith(NormalizeGeminiEndpoint(endpoint), scheme)
    ensures ValidateGeminiEndpoint(NormalizeGeminiEndpoint(endpoint))
  {
    var stripped := RStrip(endpoint, '/');
    assert stripped[..|scheme|] == endpoint[..|scheme|];
    assert (stripped + VersionSegment)[..|scheme|] == stripped[..|scheme|];
  }

  /** Without anything after the scheme, normalisation eats the scheme's own
      slashes: `https://` is accepted but becomes `https:/v1`, which is not. */
  lemma NormalizeCanBreakScheme()
    ensures ValidateGeminiEndpoint(HttpsScheme)
    ensures NormalizeGeminiEndpoint(HttpsScheme) == "https:/v1"
    ensures !ValidateGeminiEndpoint(NormalizeGeminiEndpoint(HttpsScheme))
  {
    assert RStrip(HttpsScheme, '/') == "https:" by {
      assert RStrip(HttpsScheme, '/') == RStrip("https:/", '/');
      assert RStrip("https:/", '/') == RStrip("https:", '/');
    }
    forall i | 0 <= i <= 3
      ensures !OccursAt("https:", VersionSegment, i)
    {
      assert "https:"[i] != '/';
      assert "https:"[i..i + 3][0] == "https:"[i];
    }
    assert !EndsWithApiPath("https:");
    var normalized := "https:/v1";
    assert normalized[4] != HttpScheme[4] && normalized[7] != HttpsScheme[7];
  }

  const NoModelMessage := "未配置 AI 模型（model）"
  const NoApiKeyMessage := "未配置 AI API Key，请在 config.yaml 或环境变量 AI_API_KEY 中设置"

  function BadModelFormatMessage(model: string): string {
    "模型格式错误: " + model + "，应为 'provider/model' 格式（如 'deepseek/deepseek-chat'）"
  }

  function BadGeminiEndpointMessage(apiBase: string): string {
    "自定义 Gemini API 端点格式错误: " + apiBase + "，应为有效的 HTTP/HTTPS URL"
  }

  /** `validate_config`: `(true, "")` when every check passes, otherwise
      `false` and the message of the first failing check. */
  function ValidateConfig(c: Client): (r: (bool, string))
    ensures r.0 <==>
      c.model != [] && c.apiKey != [] && Contains(c.model, "/")
      && (!StartsWith(c.model, GeminiPrefix) || ValidateGeminiEndpoint(c.apiBase))
    ensures r.0 <==> r.1 == []
  {
    if c.model == [] then
      (false, NoModelMessage)
    else if c.apiKey == [] then
      (false, NoApiKeyMessage)
    else if !Contains(c.model, "/") then
      (false, BadModelFormatMessage(c.model))
    else if StartsWith(c.model, GeminiPrefix) && c.apiBase != [] && !ValidateGeminiEndpoint(c.apiBase) then
      (false, BadGeminiEndpointMessage(c.apiBase))
    else
      (true, [])
  }

  /** The checks of `validate_config`, in the order they run. */
  datatype ConfigCheck = ModelConfigured | ApiKeyConfigured | ModelHasProvider | GeminiEndpointWellFormed

  const ConfigChecks: seq<ConfigCheck> :=
    [ModelConfigured, ApiKeyConfigured, ModelHasProvider, GeminiEndpointWellFormed]

  predicate Passes(c: Client, check: ConfigCheck) {
    match check
    case ModelConfigured => c.model != []
    case ApiKeyConfigured => c.apiKey != []
    case ModelHasProvider => Contains(c.model, "/")
    case GeminiEndpointWellFormed =>
      !StartsWith(c.model, GeminiPrefix) || c.apiBase == [] || ValidateGeminiEndpoint(c.apiBase)
  }

  function FailureMessage(c: Client, check: ConfigCheck): string {
    match check
    case ModelConfigured => NoModelMessage
    case ApiKeyConfigured => NoApiKeyMessage
    case ModelHasProvider => BadModelFormatMessage(c.model)
    case GeminiEndpointWellFormed => BadGeminiEndpointMessage(c.apiBase)
  }

  /** The first check in `checks` that fails, if any. */
  function FirstFailing(c: Client, checks: seq<ConfigCheck>): (r: Option<ConfigCheck>)
    ensures r.None? <==> forall k :: k in checks ==> Passes(c, k)
    ensures r.Some? ==> r.value in checks && !Passes(c, r.value)
  {
    if checks == [] then None
    else if !Passes(c, checks[0]) then Some(checks[0])
    else
      assert forall k :: k in checks <==> k == checks[0] || k in checks[1..];
      FirstFailing(c, checks[1..])
  }

  /** Every check before the one reported passes. */
  lemma {:induction false} FirstFailingIsFirst(c: Client, checks: seq<ConfigCheck>)
    requires FirstFailing(c, checks).Some?
    ensures exists j :: (0 <= j < |checks| && checks[j] == FirstFailing(c, checks).value
                         && forall i :: 0 <= i < j ==> Passes(c, checks[i]))
  {
    if Passes(c, checks[0]) {
      var rest := checks[1..];
      FirstFailingIsFirst(c, rest);
      var j :| 0 <= j < |rest| && rest[j] == FirstFailing(c, rest).value
        && forall i :: 0 <= i < j ==> Passes(c, rest[i]);
      assert checks[j + 1] == rest[j];
      forall i | 0 <= i < j + 1
        ensures Passes(c, checks[i])
      {
        if i > 0 {
          assert checks[i] == rest[i - 1];
        }
      }
    } else {
      assert checks[0] == FirstFailing(c, checks).value;
    }
  }

  /** `validate_config` runs its checks in order and reports the first one
      that fails, with that check's message. */
  lemma {:induction false} ValidateConfigReportsFirstFailure(c: Client)
    ensures ValidateConfig(c) ==
      match FirstFailing(c, ConfigChecks)
      case None => (true, [])
      case Some(check) => (false, FailureMessage(c, check))
  {
    var tail1 := [ApiKeyConfigured, ModelHasProvider, GeminiEndpointWellFormed];
    var tail2 := [ModelHasProvider, GeminiEndpointWellFormed];
    var tail3 := [GeminiEndpointWellFormed];
    assert ConfigChecks[1..] == tail1 && tail1[1..] == tail2 && tail2[1..] == tail3 && tail3[1..] == [];
    assert FirstFailing(c, tail3) == if Passes(c, GeminiEndpointWellFormed) then None else Some(GeminiEndpointWellFormed);
    assert FirstFailing(c, tail2) == if Passes(c, ModelHasProvider) then FirstFailing(c, tail3) else Some(ModelHasProvider);
    assert FirstFailing(c, tail1) == if Passes(c, ApiKeyConfigured) then FirstFailing(c, tail2) else Some(ApiKeyConfigured);
    assert FirstFailing(c, ConfigChecks) == if Passes(c, ModelConfigured) then FirstFailing(c, tail1) else Some(ModelConfigured);
  }

  /** A client built with no settings is valid exactly when the environment
      supplies an API key. */
  lemma DefaultClientNeedsOnlyKey(envApiKey: string)
    ensures ValidateConfig(NewClient(NoSettings, envApiKey)).0 <==> envApiKey != []
  {
    ContainsAt(DefaultModel, "/", 8);
    assert !StartsWith(DefaultModel, GeminiPrefix) by {
      assert DefaultModel[0] != GeminiPrefix[0];
    }
  }

  /** A valid configuration still names a provider after the Gemini
      rewrite: the model sent with the request contains `/`. */
  lemma ValidModelKeepsProvider(c: Client)
    requires ValidateConfig(c).0
    ensures Contains(ProcessGeminiConfig(c.model, c.apiBase).0, "/")
  {
    var m := ProcessGeminiConfig(c.model, c.apiBase).0;
    if m != c.model {
      assert m[6] == '/';
      ContainsAt(m, "/", 6);
    }
  }

  // ---------------------------------------------------------------------
  // Request parameters of `chat`

  /** `max_tokens > 0` raised `TypeError` on a value that is not a number. */
  datatype ChatError = MaxTokensNotComparable(maxTokens: Value)

  /** `kwargs.get(key, default)` */
  function KwargOr(kwargs: map<string, Value>, key: string, default: Value): (r: Value)
    ensures key in kwargs ==> r == kwargs[key]
    ensures key !in kwargs ==> r == default
  {
    if key in kwargs then kwargs[key] else default
  }

  /** `if max_tokens and max_tokens > 0`: whether `max_tokens` is written
      into the parameters, or the error the comparison raises. */
  function MaxTokensIncluded(maxTokens: Value): (r: Result<bool, ChatError>)
    ensures r.Failure? <==> Truthy(maxTokens) && !IsNumber(maxTokens)
    ensures r == Success(true) <==> Truthy(maxTokens) && IsNumber(maxTokens) && Positive(maxTokens)
  {
    if !Truthy(maxTokens) then Success(false)
    else if IsNumber(maxTokens) then Success(Positive(maxTokens))
    else Failure(MaxTokensNotComparable(maxTokens))
  }

  /** Adds the entries of `extra` whose keys `m` does not have yet; no entry
      of `m` is replaced. */
  function MergeMissing(m: map<string, Value>, extra: map<string, Value>): (r: map<string, Value>)
    ensures r.Keys == m.Keys + extra.Keys
    ensures forall k :: k in m ==> r[k] == m[k]
    ensures forall k :: k in extra && k !in m ==> r[k] == extra[k]
  {
    m + map k | k in extra && k !in m :: extra[k]
  }

  /** MergeMissing's contract determines its result. */
  lemma MergeMissingDetermined(m: map<string, Value>, extra: map<string, Value>, p: map<string, Value>)
    requires p.Keys == m.Keys + extra.Keys
    requires forall k :: k in m ==> p[k] == m[k]
    requires forall k :: k in extra && k !in m ==> p[k] == extra[k]
    ensures p == MergeMissing(m, extra)
  {
  }

  /** The parameters every request carries, and those it carries only when
      configured (or positive, for `max_tokens`). */
  const AlwaysSent: set<string> := {"model", "messages", "temperature", "timeout", "num_retries"}
  const OptionalParams: set<string> := {"api_key", "api_base", "max_tokens", "fallbacks"}

  /** The parameters before the keyword arguments are merged in: model and
      messages; temperature, timeout and retries from the keyword arguments
      or the client; the key, endpoint and fallbacks when set; `max_tokens`
      when positive. */
  function BaseParams(c: Client, messages: Value, kwargs: map<string, Value>): (r: Result<map<string, Value>, ChatError>)
    ensures r.Failure? <==>
      var maxTokens := KwargOr(kwargs, "max_tokens", c.maxTokens);
      Truthy(maxTokens) && !IsNumber(maxTokens)
    ensures r.Success? ==> AlwaysSent <= r.value.Keys <= AlwaysSent + OptionalParams
  {
    var processed := ProcessGeminiConfig(c.model, c.apiBase);
    var maxTokens := KwargOr(kwargs, "max_tokens", c.maxTokens);
    var included := MaxTokensIncluded(maxTokens);
    if included.Failure? then Failure(included.error)
    else
      var required := map[
        "model" := Str(processed.0),
        "messages" := messages,
        "temperature" := KwargOr(kwargs, "temperature", c.temperature),
        "timeout" := KwargOr(kwargs, "timeout", c.timeout),
        "num_retries" := KwargOr(kwargs, "num_retries", c.numRetries)];
      var withKey := if c.apiKey != [] then required["api_key" := Str(c.apiKey)] else required;
      var withBase := if processed.1 != [] then withKey["api_base" := Str(processed.1)] else withKey;
      var withMax := if included.value then withBase["max_tokens" := maxTokens] else withBase;
      var withFallbacks := if Truthy(c.fallbackModels) then withMax["fallbacks" := c.fallbackModels] else withMax;
      Success(withFallbacks)
  }

  /** The keyword arguments of the completion request for `chat(messages,
      **kwargs)`. */
  function ChatParams(c: Client, messages: Value, kwargs: map<string, Value>): (r: Result<map<string, Value>, ChatError>)
    ensures r.Success? <==> BaseParams(c, messages, kwargs).Success?
    ensures r.Success? ==> AlwaysSent + kwargs.Keys <= r.value.Keys <= AlwaysSent + OptionalParams + kwargs.Keys
  {
    match BaseParams(c, messages, kwargs)
    case Failure(e) => Failure(e)
    case Success(base) => Success(MergeMissing(base, kwargs))
  }

  /** Builds the request parameters of `chat` step by step, as the client
      does, up to the completion call. */
  method BuildChatParams(c: Client, messages: Value, kwargs: map<string, Value>)
    returns (r: Result<map<string, Value>, ChatError>)
    ensures r == ChatParams(c, messages, kwargs)
  {
    var processed := ProcessGeminiConfig(c.model, c.apiBase);
    var model, apiBase := processed.0, processed.1;
    var params := map[
      "model" := Str(model),
      "messages" := messages,
      "temperature" := KwargOr(kwargs, "temperature", c.temperature),
      "timeout" := KwargOr(kwargs, "timeout", c.timeout),
      "num_retries" := KwargOr(kwargs, "num_retries", c.numRetries)];
    if c.apiKey != [] {
      params := params["api_key" := Str(c.apiKey)];
    }
    if apiBase != [] {
      params := params["api_base" := Str(apiBase)];
    }
    var maxTokens := KwargOr(kwargs, "max_tokens", c.maxTokens);
    var included := MaxTokensIncluded(maxTokens);
    if included.Failure? {
      return Failure(included.error);
    }
    if included.value {
      params := params["max_tokens" := maxTokens];
    }
    if Truthy(c.fallbackModels) {
      params := params["fallbacks" := c.fallbackModels];
    }
    ghost var base := params;
    assert BaseParams(c, messages, kwargs) == Success(base);

    var pending := kwargs.Keys;
    while pending != {}
      invariant pending <= kwargs.Keys
      invariant params.Keys == base.Keys + (kwargs.Keys - pending)
      invariant forall k :: k in base ==> params[k] == base[k]
      invariant forall k :: k in kwargs && k !in pending && k !in base ==> params[k] == kwargs[k]
      decreases pending
    {
      var key :| key in pending;
      if key !in params {
        params := params[key := kwargs[key]];
      }
      pending := pending - {key};
    }
    MergeMissingDetermined(base, kwargs, params);
    r := Success(params);
  }

  /** Merging the keyword arguments never replaces an entry already set, and
      every keyword argument reaches the request. */
  lemma ChatParamsNeverOverwrite(c: Client, messages: Value, kwargs: map<string, Value>)
    requires BaseParams(c, messages, kwargs).Success?
    ensures ChatParams(c, messages, kwargs).Success?
    ensures var base := BaseParams(c, messages, kwargs).value;
      var params := ChatParams(c, messages, kwargs).value;
      && params.Keys == base.Keys + kwargs.Keys
      && (forall k :: k in base ==> params[k] == base[k])
      && (forall k :: k in kwargs && k !in base ==> params[k] == kwargs[k])
  {
  }

  /** Temperature, timeout and retries come from the keyword arguments when
      given and from the client otherwise. A `max_tokens` keyword argument
      always reaches the request unchanged, even 0 or a negative number (the
      merge adds what the positivity test left out); without one, the
      client's `max_tokens` is sent only when it is a positive number. */
  lemma ChatParamsOverridable(c: Client, messages: Value, kwargs: map<string, Value>)
    requires ChatParams(c, messages, kwargs).Success?
    ensures var params := ChatParams(c, messages, kwargs).value;
      && "temperature" in params && params["temperature"] == KwargOr(kwargs, "temperature", c.temperature)
      && "timeout" in params && params["timeout"] == KwargOr(kwargs, "timeout", c.timeout)
      && "num_retries" in params && params["num_retries"] == KwargOr(kwargs, "num_retries", c.numRetries)
      && ("max_tokens" in kwargs ==> "max_tokens" in params && params["max_tokens"] == kwargs["max_tokens"])
      && ("max_tokens" !in kwargs ==>
            ("max_tokens" in params <==> IsNumber(c.maxTokens) && Positive(c.maxTokens))
            && ("max_tokens" in params ==> params["max_tokens"] == c.maxTokens))
  {
  }

  /** The model, the messages, and a configured key, endpoint or fallback
      list cannot be replaced by keyword arguments; a key, endpoint or
      fallback list that is not configured is sent only when a keyword
      argument supplies it. */
  lemma ChatParamsPinned(c: Client, messages: Value, kwargs: map<string, Value>)
    requires ChatParams(c, messages, kwargs).Success?
    ensures var params := ChatParams(c, messages, kwargs).value;
      var processed := ProcessGeminiConfig(c.model, c.apiBase);
      && "model" in params && params["model"] == Str(processed.0)
      && "messages" in params && params["messages"] == messages
      && (c.apiKey != [] ==> "api_key" in params && params["api_key"] == Str(c.apiKey))
      && (c.apiKey == [] ==> ("api_key" in params <==> "api_key" in kwargs))
      && (processed.1 != [] ==> "api_base" in params && params["api_base"] == Str(processed.1))
      && (processed.1 == [] ==> ("api_base" in params <==> "api_base" in kwargs))
      && (Truthy(c.fallbackModels) ==> "fallbacks" in params && params["fallbacks"] == c.fallbackModels)
      && (!Truthy(c.fallbackModels) ==> ("fallbacks" in params <==> "fallbacks" in kwargs))
  {
    var base := BaseParams(c, messages, kwargs).value;
    var processed := ProcessGeminiConfig(c.model, c.apiBase);
    assert base["model"] == Str(processed.0) && base["messages"] == messages;
    assert "api_key" in base <==> c.apiKey != [];
    assert c.apiKey != [] ==> base["api_key"] == Str(c.apiKey);
    assert "api_base" in base <==> processed.1 != [];
    assert processed.1 != [] ==> base["api_base"] == Str(processed.1);
    assert "fallbacks" in base <==> Truthy(c.fallbackModels);
    assert Truthy(c.fallbackModels) ==> base["fallbacks"] == c.fallbackModels;
  }

  /** Assembling the parameters fails only when the `max_tokens` in effect
      is a non-empty string, list or dictionary. */
  lemma ChatParamsFailure(c: Client, messages: Value, kwargs: map<string, Value>)
    ensures ChatParams(c, messages, kwargs).Failure? <==>
      var maxTokens := KwargOr(kwargs, "max_tokens", c.maxTokens);
      Truthy(maxTokens) && !IsNumber(maxTokens)
  {
  }
}
