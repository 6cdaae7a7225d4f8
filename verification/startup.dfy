/** Start-up configuration (src/main.rs): how the process environment
    becomes the initial `AIConfig`, and how that configuration's embedding
    dimension reaches the vector index. The environment is a map from
    variable names to values; a variable that is not set is a missing key. */
module Startup {
  import opened Domain
  import opened Text

  const DefaultProvider: string := "openai"
  const DefaultModel: string := "gpt-4o"
  const DefaultEmbeddingModel: string := "text-embedding-3-small"
  const DefaultDimText: string := "1536"

  /** One more than the largest `usize` on the 64-bit targets the server runs on. */
  const UsizeLimit: nat := 0x1_0000_0000_0000_0000

  /** `std::env::var`: the value, when the variable is set. */
  function Var(env: map<string, string>, name: string): (r: Option<string>)
    ensures r.Some? <==> name in env
    ensures r.Some? ==> r.value == env[name]
  {
    if name in env then Some(env[name]) else None
  }

  // ---------------------------------------------------------------------
  // Parsing the embedding dimension
  // ---------------------------------------------------------------------

  predicate IsDigit(c: char) {
    '0' <= c <= '9'
  }

  predicate AllDigits(s: string) {
    forall i :: 0 <= i < |s| ==> IsDigit(s[i])
  }

  /** The value of a string of decimal digits, most significant first. */
  function DigitsValue(ds: string): nat
    requires AllDigits(ds)
    decreases |ds|
  {
    if ds == [] then 0 else 10 * DigitsValue(ds[..|ds| - 1]) + (ds[|ds| - 1] as int - '0' as int)
  }

  /** `str::parse::<usize>()`: an optional '+', then one or more ASCII
      digits whose value fits in a `usize`; anything else is an error. */
  function ParseUsize(s: string): Option<nat> {
    var ds := if |s| > 0 && s[0] == '+' then s[1..] else s;
    if ds != [] && AllDigits(ds) && DigitsValue(ds) < UsizeLimit then Some(DigitsValue(ds)) else None
  }

  /** The decimal rendering of a number, without sign or leading zeros. */
  function ShowNat(n: nat): (s: string)
    ensures s != [] && AllDigits(s)
    decreases n
  {
    var d := [('0' as int + n % 10) as char];
    if n < 10 then d else ShowNat(n / 10) + d
  }

  lemma {:induction false} ShowNatValue(n: nat)
    ensures DigitsValue(ShowNat(n)) == n
    decreases n
  {
    var s := ShowNat(n);
    if n >= 10 {
      ShowNatValue(n / 10);
      assert s[..|s| - 1] == ShowNat(n / 10);
    }
  }

  /** Every `usize` written in decimal parses back to itself. */
  lemma ParseShowRoundTrip(n: nat)
    requires n < UsizeLimit
    ensures ParseUsize(ShowNat(n)) == Some(n)
  {
    ShowNatValue(n);
  }

  /** A parsed dimension fits in a `usize` and came from digits, with at
      most a leading '+'; an empty value does not parse. */
  lemma ParseUsizeSpec(s: string)
    ensures ParseUsize(s).Some? ==> ParseUsize(s).value < UsizeLimit
    ensures ParseUsize(s).Some? ==> |s| >= 1 && (IsDigit(s[0]) || s[0] == '+')
    ensures ParseUsize(s).Some? ==> forall i :: 1 <= i < |s| ==> IsDigit(s[i])
    ensures ParseUsize([]) == None && ParseUsize("+") == None
  {
    if ParseUsize(s).Some? && s[0] != '+' {
      assert IsDigit(s[0]);
    }
  }

  lemma DefaultDimParses()
    ensures ParseUsize(DefaultDimText) == Some(1536)
  {
    assert ShowNat(1536) == DefaultDimText;
    ParseShowRoundTrip(1536);
  }

  // ---------------------------------------------------------------------
  // The provider
  // ---------------------------------------------------------------------

  /** The provider named by `AI_PROVIDER`, compared in lower case. */
  function ProviderFrom(s: string): AIProvider {
    var key := ToLower(s);
    if key == "ollama" then Ollama else if key == "groq" then Groq else OpenAI
  }

  /** The canonical spelling of each provider. */
  function ProviderKey(p: AIProvider): string {
    match p
    case OpenAI => "openai"
    case Groq => "groq"
    case Ollama => "ollama"
  }

  lemma {:induction false} ToLowerIdempotent(s: string)
    ensures ToLower(ToLower(s)) == ToLower(s)
  {
    assert forall i :: 0 <= i < |s| ==> LowerChar(LowerChar(s[i])) == LowerChar(s[i]);
  }

  /** The choice ignores ASCII case, every canonical spelling selects its
      provider, and any other name, the default included, selects OpenAI. */
  lemma ProviderFromSpec(s: string, p: AIProvider)
    ensures ProviderFrom(s) == ProviderFrom(ToLower(s))
    ensures ProviderFrom(ProviderKey(p)) == p
    ensures ProviderFrom(DefaultProvider) == OpenAI
    ensures ToLower(s) != "ollama" && ToLower(s) != "groq" ==> ProviderFrom(s) == OpenAI
  {
    ToLowerIdempotent(s);
    assert ToLower("openai") == "openai";
    assert ToLower("groq") == "groq";
    assert ToLower("ollama") == "ollama";
  }

  lemma ProviderExamples()
    ensures ProviderFrom("OLLAMA") == Ollama
    ensures ProviderFrom("Groq") == Groq
    ensures ProviderFrom("anthropic") == OpenAI
  {
    assert ToLower("OLLAMA") == "ollama";
    assert ToLower("Groq") == "groq";
    assert ToLower("anthropic")[0] == 'a';
  }

  // ---------------------------------------------------------------------
  // The configuration
  // ---------------------------------------------------------------------

  /** The API key: `AI_API_KEY`, else `OPENAI_API_KEY`, else empty. */
  function ApiKeyFrom(env: map<string, string>): string {
    match Var(env, "AI_API_KEY")
    case Some(k) => k
    case None => Var(env, "OPENAI_API_KEY").GetOr("")
  }

  /** The initial configuration, or `None` where `expect` on the parsed
      dimension panics. */
  function ConfigFromEnv(env: map<string, string>): Option<AIConfig> {
    var provider := ProviderFrom(Var(env, "AI_PROVIDER").GetOr(DefaultProvider));
    var model := Var(env, "AI_MODEL").GetOr(DefaultModel);
    var embeddingModel := Var(env, "AI_EMBEDDING_MODEL").GetOr(DefaultEmbeddingModel);
    match ParseUsize(Var(env, "AI_EMBEDDING_DIM").GetOr(DefaultDimText))
    case None => None
    case Some(dim) => Some(AIConfig(provider, model, embeddingModel, ApiKeyFrom(env), dim, Var(env, "AI_BASE_URL")))
  }

  /** Start-up panics exactly when the dimension is set and not a number;
      otherwise each field takes its variable or its default, the key falls
      back to OPENAI_API_KEY and then to empty, and the base URL is absent
      exactly when AI_BASE_URL is. */
  lemma ConfigFromEnvSpec(env: map<string, string>)
    ensures ConfigFromEnv(env).None? <==> "AI_EMBEDDING_DIM" in env && ParseUsize(env["AI_EMBEDDING_DIM"]).None?
    ensures ConfigFromEnv(env).Some? ==>
              var c := ConfigFromEnv(env).value;
              (c.baseUrl.None? <==> "AI_BASE_URL" !in env) &&
              ("AI_BASE_URL" in env ==> c.baseUrl == Some(env["AI_BASE_URL"])) &&
              ("AI_API_KEY" in env ==> c.apiKey == env["AI_API_KEY"]) &&
              ("AI_API_KEY" !in env && "OPENAI_API_KEY" in env ==> c.apiKey == env["OPENAI_API_KEY"]) &&
              ("AI_API_KEY" !in env && "OPENAI_API_KEY" !in env ==> c.apiKey == "") &&
              ("AI_MODEL" in env ==> c.modelName == env["AI_MODEL"]) &&
              ("AI_MODEL" !in env ==> c.modelName == DefaultModel) &&
              ("AI_EMBEDDING_MODEL" in env ==> c.embeddingModel == env["AI_EMBEDDING_MODEL"]) &&
              ("AI_EMBEDDING_MODEL" !in env ==> c.embeddingModel == DefaultEmbeddingModel) &&
              ("AI_EMBEDDING_DIM" !in env ==> c.embeddingDim == 1536) &&
              ("AI_EMBEDDING_DIM" in env ==> ParseUsize(env["AI_EMBEDDING_DIM"]) == Some(c.embeddingDim)) &&
              ("AI_PROVIDER" in env ==> c.provider == ProviderFrom(env["AI_PROVIDER"])) &&
              ("AI_PROVIDER" !in env ==> c.provider == OpenAI)
  {
    DefaultDimParses();
    ProviderFromSpec(DefaultProvider, OpenAI);
  }

  /** An empty environment gives the OpenAI defaults with no key. */
  lemma EmptyEnvironment()
    ensures ConfigFromEnv(map[]) == Some(AIConfig(OpenAI, "gpt-4o", "text-embedding-3-small", "", 1536, None))
  {
    ConfigFromEnvSpec(map[]);
  }

  /** An environment that spells out a configuration. */
  function EnvOf(c: AIConfig): map<string, string> {
    var base := map["AI_PROVIDER" := ProviderKey(c.provider), "AI_API_KEY" := c.apiKey,
                    "AI_MODEL" := c.modelName, "AI_EMBEDDING_MODEL" := c.embeddingModel,
                    "AI_EMBEDDING_DIM" := ShowNat(c.embeddingDim)];
    if c.baseUrl.Some? then base["AI_BASE_URL" := c.baseUrl.value] else base
  }

  /** Every configuration whose dimension fits in a `usize` can be given
      through the environment: reading back its spelled-out form yields it. */
  lemma ConfigEnvRoundTrip(c: AIConfig)
    requires c.embeddingDim < UsizeLimit
    ensures ConfigFromEnv(EnvOf(c)) == Some(c)
  {
    var env := EnvOf(c);
    ParseShowRoundTrip(c.embeddingDim);
    ProviderFromSpec(ProviderKey(c.provider), c.provider);
    assert Var(env, "AI_EMBEDDING_DIM") == Some(ShowNat(c.embeddingDim));
    assert Var(env, "AI_BASE_URL") == c.baseUrl;
  }

  // ---------------------------------------------------------------------
  // Index creation at start-up
  // ---------------------------------------------------------------------

  const IndexWarningPrefix: string := "⚠️ Could not ensure indexes: "

  /** Start-up up to the index creation: a panic, or the configuration the
      AI service starts with, the dimension handed to create_indexes and the
      warning logged if that failed. `indexError` is the database's answer
      to create_indexes for a dimension. */
  datatype StartupOutcome =
    | Panicked
    | Started(config: AIConfig, indexDim: nat, warning: Option<string>)

  function StartUp(env: map<string, string>, indexError: nat -> Option<string>): StartupOutcome {
    match ConfigFromEnv(env)
    case None => Panicked
    case Some(config) =>
      var warning := match indexError(config.embeddingDim)
                     case None => None
                     case Some(e) => Some(IndexWarningPrefix + e);
      Started(config, config.embeddingDim, warning)
  }

  /** Only the dimension can stop start-up; the index is created for the
      configured dimension, and a failure there is only a warning. */
  lemma StartUpSpec(env: map<string, string>, indexError: nat -> Option<string>)
    ensures StartUp(env, indexError).Panicked? <==> "AI_EMBEDDING_DIM" in env && ParseUsize(env["AI_EMBEDDING_DIM"]).None?
    ensures StartUp(env, indexError).Started? ==>
              var r := StartUp(env, indexError);
              Some(r.config) == ConfigFromEnv(env) && r.indexDim == r.config.embeddingDim &&
              (r.warning.Some? <==> indexError(r.indexDim).Some?) &&
              (r.warning.Some? ==> EndsWith(r.warning.value, indexError(r.indexDim).value))
  {
    ConfigFromEnvSpec(env);
    var r := StartUp(env, indexError);
    if r.Started? && r.warning.Some? {
      var e := indexError(r.indexDim).value;
      assert r.warning.value[|r.warning.value| - |e|..] == e;
    }
  }
}
