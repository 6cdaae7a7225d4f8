/** The AI client (`RigAIService`, src/infrastructure/ai/rig_client.rs):
    the fence stripping applied to model answers, the replaceable
    configuration, the choice of the provider's base URL, and how the
    answers of the embedding and completion endpoints become results or
    `AppError`s. The endpoints themselves and the JSON decoder are outside
    the model and are passed in as functions. */
module AIClient {
  import opened Domain
  import opened Text

  // ---------------------------------------------------------------------
  // clean_json_response
  // ---------------------------------------------------------------------

  const Fence: string := "```"
  const JsonFence: string := "```json"

  /** `n` copies of `p`, one after the other. */
  function Repeat(p: string, n: nat): string {
    if n == 0 then [] else p + Repeat(p, n - 1)
  }

  lemma {:induction false} RepeatSnoc(p: string, n: nat)
    ensures Repeat(p, n) + p == Repeat(p, n + 1)
  {
    if n > 0 {
      RepeatSnoc(p, n - 1);
      assert Repeat(p, n) + p == p + (Repeat(p, n - 1) + p);
    }
  }

  /** `str::trim_start_matches(p)`: removes every leading repetition of `p`. */
  function TrimStartMatches(s: string, p: string): (r: string)
    ensures |r| <= |s| && r == s[|s| - |r|..]
    ensures p != [] ==> !StartsWith(r, p)
    ensures !StartsWith(s, p) ==> r == s
    decreases |s|
  {
    if p != [] && StartsWith(s, p) then TrimStartMatches(s[|p|..], p) else s
  }

  /** `str::trim_end_matches(p)`: removes every trailing repetition of `p`. */
  function TrimEndMatches(s: string, p: string): (r: string)
    ensures |r| <= |s| && r == s[..|r|]
    ensures p != [] ==> !EndsWith(r, p)
    ensures !EndsWith(s, p) ==> r == s
    decreases |s|
  {
    if p != [] && EndsWith(s, p) then TrimEndMatches(s[..|s| - |p|], p) else s
  }

  lemma CopyCons(p: string, m: nat, q: string, r: string)
    requires q == Repeat(p, m) + r
    ensures p + q == Repeat(p, m + 1) + r
  {
  }

  lemma CopySnoc(p: string, m: nat, q: string, r: string)
    requires q == r + Repeat(p, m)
    ensures q + p == r + Repeat(p, m + 1)
  {
    RepeatSnoc(p, m);
  }

  lemma PrefixThenRest<T>(s: seq<T>, k: nat)
    requires k <= |s|
    ensures s == s[..k] + s[k..]
  {
  }

  /** The number of copies of `p` that `trim_start_matches` cuts away. */
  lemma {:induction false} TrimStartMatchesCount(s: string, p: string) returns (n: nat)
    ensures s == Repeat(p, n) + TrimStartMatches(s, p)
    decreases |s|
  {
    if p != [] && StartsWith(s, p) {
      var q := s[|p|..];
      var m := TrimStartMatchesCount(q, p);
      PrefixThenRest(s, |p|);
      CopyCons(p, m, q, TrimStartMatches(q, p));
      n := m + 1;
    } else {
      n := 0;
      assert s == Repeat(p, 0) + s;
    }
  }

  /** The number of copies of `p` that `trim_end_matches` cuts away. */
  lemma {:induction false} TrimEndMatchesCount(s: string, p: string) returns (n: nat)
    ensures s == TrimEndMatches(s, p) + Repeat(p, n)
    decreases |s|
  {
    if p != [] && EndsWith(s, p) {
      var q := s[..|s| - |p|];
      var m := TrimEndMatchesCount(q, p);
      PrefixThenRest(s, |s| - |p|);
      CopySnoc(p, m, q, TrimEndMatches(q, p));
      n := m + 1;
    } else {
      n := 0;
      assert s == s + Repeat(p, 0);
    }
  }

  /** What `trim_start_matches` cuts away is a number of copies of `p`. */
  lemma TrimStartMatchesCopies(s: string, p: string)
    ensures exists n: nat :: s == Repeat(p, n) + TrimStartMatches(s, p)
  {
    var n := TrimStartMatchesCount(s, p);
  }

  /** What `trim_end_matches` cuts away is a number of copies of `p`. */
  lemma TrimEndMatchesCopies(s: string, p: string)
    ensures exists n: nat :: s == TrimEndMatches(s, p) + Repeat(p, n)
  {
    var n := TrimEndMatchesCount(s, p);
  }

  /** `clean_json_response`: trim, drop a leading "```json", then leading
      "```", then trailing "```". */
  function CleanJsonResponse(raw: string): string {
    StripFences(Trim(raw))
  }

  /** The stages of the cleaning, from the trimmed answer `t`. */
  function StripFences(t: string): string {
    TrimEndMatches(TrimStartMatches(TrimStartMatches(t, JsonFence), Fence), Fence)
  }

  /** A prefix of a string that does not start with `p` does not either. */
  lemma PrefixNotStarting(r: string, b: string, p: string)
    requires |r| <= |b| && r == b[..|r|] && !StartsWith(b, p)
    ensures !StartsWith(r, p)
  {
    if |p| <= |r| {
      assert r[..|p|] == b[..|p|];
    }
  }

  lemma StartsWithLonger(s: string, p: string, q: string)
    requires StartsWith(s, p) && StartsWith(p, q)
    ensures StartsWith(s, q)
  {
    assert s[..|q|] == s[..|p|][..|q|];
  }

  /** The cleaned answer is a contiguous piece of what it was cleaned from. */
  lemma StripFencesSlice(t: string)
    ensures exists i, j :: 0 <= i <= j <= |t| && StripFences(t) == t[i..j]
  {
    var a := TrimStartMatches(t, JsonFence);
    var b := TrimStartMatches(a, Fence);
    var r := TrimEndMatches(b, Fence);
    SuffixOfSuffix(t, a, b);
    PrefixOfSuffix(t, b, r);
    var i := |t| - |b|;
    assert StripFences(t) == t[i..i + |r|];
  }

  /** The cleaned answer neither starts nor ends with a fence, and it is a
      contiguous piece of what it was cleaned from. */
  lemma StripFencesSpec(t: string)
    ensures !StartsWith(StripFences(t), Fence)
    ensures !EndsWith(StripFences(t), Fence)
    ensures exists i, j :: 0 <= i <= j <= |t| && StripFences(t) == t[i..j]
  {
    var b := TrimStartMatches(TrimStartMatches(t, JsonFence), Fence);
    PrefixNotStarting(TrimEndMatches(b, Fence), b, Fence);
    StripFencesSlice(t);
  }

  /** An answer without fences is left as it is. */
  lemma {:induction false} StripFencesNoFence(t: string)
    requires !StartsWith(t, Fence) && !EndsWith(t, Fence)
    ensures StripFences(t) == t
  {
    assert StartsWith(JsonFence, Fence);
    if StartsWith(t, JsonFence) {
      StartsWithLonger(t, JsonFence, Fence);
    }
  }

  /** The cleaned answer neither starts nor ends with a fence, it is a
      contiguous piece of the trimmed answer, and an answer without fences
      is only trimmed. */
  lemma CleanJsonResponseSpec(raw: string)
    ensures !StartsWith(CleanJsonResponse(raw), Fence)
    ensures !EndsWith(CleanJsonResponse(raw), Fence)
    ensures exists i, j :: 0 <= i <= j <= |Trim(raw)| && CleanJsonResponse(raw) == Trim(raw)[i..j]
    ensures !StartsWith(Trim(raw), Fence) && !EndsWith(Trim(raw), Fence) ==> CleanJsonResponse(raw) == Trim(raw)
  {
    var t := Trim(raw);
    assert CleanJsonResponse(raw) == StripFences(t);
    StripFencesSpec(t);
    if !StartsWith(t, Fence) && !EndsWith(t, Fence) {
      StripFencesNoFence(t);
    }
  }

  lemma FencedExampleOpening()
    ensures TrimStartMatches("```json\n{}\n```", JsonFence) == "\n{}\n```"
  {
    var raw := "```json\n{}\n```";
    var a := "\n{}\n```";
    assert StartsWith(raw, JsonFence);
    assert raw[|JsonFence|..] == a;
    assert a[0] != JsonFence[0];
  }

  lemma FencedExampleClosing()
    ensures TrimEndMatches("\n{}\n```", Fence) == "\n{}\n"
  {
    var a := "\n{}\n```";
    var c := "\n{}\n";
    assert EndsWith(a, Fence);
    assert a[..|a| - |Fence|] == c;
    assert c[|c| - 3] != Fence[0];
  }

  /** The usual fenced answer loses its fences but keeps the newlines inside them. */
  lemma CleanJsonResponseExample()
    ensures StripFences("```json\n{}\n```") == "\n{}\n"
  {
    var a := "\n{}\n```";
    FencedExampleOpening();
    assert TrimStartMatches(a, Fence) == a by {
      assert a[0] != Fence[0];
    }
    FencedExampleClosing();
  }

  // ---------------------------------------------------------------------
  // Configuration and client
  // ---------------------------------------------------------------------

  const DefaultBaseUrl: string := "https://api.openai.com/v1"

  /** The endpoint `get_client` talks to: the configured base URL, or
      OpenAI's when none is configured. */
  function BaseUrl(config: AIConfig): (url: string)
    ensures config.baseUrl.Some? ==> url == config.baseUrl.value
    ensures config.baseUrl.None? ==> url == DefaultBaseUrl
  {
    config.baseUrl.GetOr(DefaultBaseUrl)
  }

  /** The service object: it holds the configuration, which the settings
      handler can replace at run time. */
  class RigAIService {
    var config: AIConfig

    constructor (config: AIConfig)
      ensures this.config == config
    {
      this.config := config;
    }

    /** `get_config`: a copy of the current configuration. */
    function GetConfig(): AIConfig
      reads this
    {
      config
    }

    /** `update_config`: replaces the whole configuration; it never fails. */
    method UpdateConfig(newConfig: AIConfig) returns (r: Outcome<AppError>)
      modifies this
      ensures r == Pass
      ensures GetConfig() == newConfig
    {
      config := newConfig;
      r := Pass;
    }
  }

  // ---------------------------------------------------------------------
  // generate_embedding
  // ---------------------------------------------------------------------

  /** What the embedding endpoint is asked: where, with which key, with
      which model, for which text. */
  datatype EmbeddingRequest = EmbeddingRequest(baseUrl: string, apiKey: string, model: string, text: string)

  /** What the embeddings builder returns: an error, or the embeddings of
      each document (one document is submitted). */
  datatype EmbeddingAnswer = BuildFailed(message: string) | Built(documents: seq<seq<Embedding>>)

  /** `generate_embedding`: the first embedding of the first document, or
      an AIError saying which step gave nothing. */
  function GenerateEmbedding(config: AIConfig, text: string, endpoint: EmbeddingRequest -> EmbeddingAnswer): (r: Result<Embedding, AppError>)
    ensures var answer := endpoint(EmbeddingRequest(BaseUrl(config), config.apiKey, config.embeddingModel, text));
            (r.Ok? <==> answer.Built? && answer.documents != [] && answer.documents[0] != []) &&
            (r.Ok? ==> r.value == answer.documents[0][0]) &&
            (r.Err? ==> r.error.AIError?) &&
            (answer.Built? && answer.documents == [] ==> r == Err(AIError("No embedding returned"))) &&
            (answer.Built? && answer.documents != [] && answer.documents[0] == [] ==>
               r == Err(AIError("Document generated no embeddings")))
  {
    var answer := endpoint(EmbeddingRequest(BaseUrl(config), config.apiKey, config.embeddingModel, text));
    match answer
    case BuildFailed(e) => Err(AIError("Embedding failed (Provider: " + ProviderName(config.provider) + "): " + e))
    case Built(documents) =>
      if documents == [] then Err(AIError("No embedding returned"))
      else if documents[0] == [] then Err(AIError("Document generated no embeddings"))
      else Ok(documents[0][0])
  }

  // ---------------------------------------------------------------------
  // extract_knowledge
  // ---------------------------------------------------------------------

  const ExtractionPreamble: string :=
    "You are an expert Ontology Engineer. Extract entities and relationships from the text. "
    + "Return strictly JSON format matching this structure: "
    + "{ \"entities\": [{\"name\": \"...\", \"category\": \"...\"}], \"relations\": [{\"source\": \"...\", \"target\": \"...\", \"relation_type\": \"...\"}] }"

  /** What a completion agent is asked. */
  datatype CompletionRequest = CompletionRequest(baseUrl: string, apiKey: string, model: string, preamble: string, prompt: string)

  /** `extract_knowledge`: a failed prompt is an AIError, an answer whose
      cleaned form does not decode is a ParseError quoting the cleaned
      text, and otherwise the decoded extraction is returned. */
  function ExtractKnowledge(config: AIConfig, text: string,
                            agent: CompletionRequest -> Result<string, string>,
                            decode: string -> Result<KnowledgeExtraction, string>): (r: Result<KnowledgeExtraction, AppError>)
    ensures var answer := agent(CompletionRequest(BaseUrl(config), config.apiKey, config.modelName, ExtractionPreamble, text));
            (answer.Err? ==> r == Err(AIError("Extraction failed: " + answer.error))) &&
            (answer.Ok? ==> r.Ok? == decode(CleanJsonResponse(answer.value)).Ok?) &&
            (answer.Ok? && r.Ok? ==> r.value == decode(CleanJsonResponse(answer.value)).value) &&
            (answer.Ok? && r.Err? ==> r.error.ParseError? && EndsWith(r.error.message, CleanJsonResponse(answer.value)))
  {
    var answer := agent(CompletionRequest(BaseUrl(config), config.apiKey, config.modelName, ExtractionPreamble, text));
    match answer
    case Err(e) => Err(AIError("Extraction failed: " + e))
    case Ok(response) =>
      var cleaned := CleanJsonResponse(response);
      match decode(cleaned)
      case Err(e) =>
        var message := "Failed to parse JSON: " + e + " - Raw: " + cleaned;
        assert message[|message| - |cleaned|..] == cleaned;
        Err(ParseError(message))
      case Ok(extraction) => Ok(extraction)
  }
}
