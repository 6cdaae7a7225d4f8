/** The chat endpoint (`chat_handler`, src/interface/handlers/chat.rs):
    embed the question, retrieve the closest chunks with the entities they
    mention, turn them into a context block for the system prompt and a list
    of references, then ask the configured completion endpoint.

    The embedding, the retrieval and the completion are outside the model and
    are read from a `ChatOracle`; the handler's outside calls are returned in
    order so that what it asked, and when it stopped, can be stated. */
module Chat {
  import opened Domain
  import opened Text
  import opened AIClient

  /** The number of chunks retrieved for a question. */
  const RetrievalLimit: nat := 3

  // ---------------------------------------------------------------------
  // Short chunk ids
  // ---------------------------------------------------------------------

  /** No prefix of `s` has `n` bytes when the first character alone is
      longer, or when no prefix of the rest has the bytes left over. */
  lemma NoBoundaryCons(s: string, n: nat)
    requires n > 0 && s != []
    requires Utf8Width(s[0]) > n || forall k :: 0 <= k <= |s[1..]| ==> Utf8Len(s[1..][..k]) != n - Utf8Width(s[0])
    ensures forall k :: 0 <= k <= |s| ==> Utf8Len(s[..k]) != n
  {
    forall k | 0 <= k <= |s| ensures Utf8Len(s[..k]) != n {
      if k > 0 {
        assert s[..k][0] == s[0] && s[..k][1..] == s[1..][..k - 1];
      }
    }
  }

  /** The prefix of `s` that is exactly `n` UTF-8 bytes long, if the n-th
      byte falls on a character boundary: `&s[..n]`, which panics otherwise.
      There is none exactly when no prefix of `s` is `n` bytes long. */
  function PrefixOfBytes(s: string, n: nat): (r: Option<string>)
    ensures r.Some? ==> |r.value| <= |s| && r.value == s[..|r.value|] && Utf8Len(r.value) == n
    ensures r.None? <==> forall k :: 0 <= k <= |s| ==> Utf8Len(s[..k]) != n
    decreases |s|
  {
    if n == 0 then
      assert Utf8Len(s[..0]) == 0 by { assert s[..0] == []; }
      Some([])
    else if s == [] then
      assert s[..0] == [];
      None
    else if Utf8Width(s[0]) > n then
      NoBoundaryCons(s, n);
      None
    else
      match PrefixOfBytes(s[1..], n - Utf8Width(s[0]))
      case None =>
        NoBoundaryCons(s, n);
        None
      case Some(p) =>
        assert ([s[0]] + p)[0] == s[0] && ([s[0]] + p)[1..] == p;
        Some([s[0]] + p)
  }

  /** The id shown in a reference: the first 8 bytes of a longer id, the
      whole id otherwise; `None` where slicing at byte 8 would panic. */
  function ShortId(id: string): Option<string> {
    if Utf8Len(id) > 8 then PrefixOfBytes(id, 8) else Some(id)
  }

  predicate IsAscii(s: string) {
    forall i :: 0 <= i < |s| ==> s[i] as int < 0x80
  }

  lemma {:induction false} AsciiUtf8Len(s: string)
    requires IsAscii(s)
    ensures Utf8Len(s) == |s|
    decreases |s|
  {
    if s != [] {
      assert IsAscii(s[1..]) by {
        forall i | 0 <= i < |s[1..]| ensures s[1..][i] as int < 0x80 { assert s[1..][i] == s[i + 1]; }
      }
      AsciiUtf8Len(s[1..]);
    }
  }

  lemma {:induction false} AsciiPrefixOfBytes(s: string, n: nat)
    requires IsAscii(s) && n <= |s|
    ensures PrefixOfBytes(s, n) == Some(s[..n])
    decreases |s|
  {
    if n > 0 {
      assert IsAscii(s[1..]) by {
        forall i | 0 <= i < |s[1..]| ensures s[1..][i] as int < 0x80 { assert s[1..][i] == s[i + 1]; }
      }
      AsciiPrefixOfBytes(s[1..], n - 1);
      assert Utf8Width(s[0]) == 1;
      assert PrefixOfBytes(s, n) == Some([s[0]] + s[1..][..n - 1]);
      assert s[..n] == [s[0]] + s[1..][..n - 1];
    }
  }

  /** The short id is always a prefix of the id of at most 8 bytes. For an
      ASCII id, such as the UUIDs the pipeline stores, it is defined and is
      the first 8 characters of a longer id and the whole id otherwise. */
  lemma ShortIdSpec(id: string)
    ensures ShortId(id).Some? ==> StartsWith(id, ShortId(id).value) && Utf8Len(ShortId(id).value) <= 8
    ensures Utf8Len(id) <= 8 ==> ShortId(id) == Some(id)
    ensures IsAscii(id) ==> ShortId(id) == Some(if |id| > 8 then id[..8] else id)
  {
    if IsAscii(id) {
      AsciiUtf8Len(id);
      if |id| > 8 {
        AsciiPrefixOfBytes(id, 8);
      }
    }
  }

  /** Cutting right after an ASCII run of `k` characters plus one byte of a
      wider character is not on a character boundary. */
  lemma {:induction false} PrefixSplitsCharacter(s: string, k: nat)
    requires k < |s| && IsAscii(s[..k]) && Utf8Width(s[k]) >= 2
    ensures PrefixOfBytes(s, k + 1) == None
    decreases k
  {
    if k > 0 {
      assert s[..k][0] == s[0];
      var rest := s[1..][..k - 1];
      assert IsAscii(rest) by {
        forall i | 0 <= i < |rest| ensures rest[i] as int < 0x80 {
          assert rest[i] == s[..k][i + 1];
        }
      }
      assert s[1..][..k - 1] == rest;
      PrefixSplitsCharacter(s[1..], k - 1);
    }
  }

  /** An id whose 8th byte falls inside a two-byte character cannot be cut:
      the handler panics on it. */
  lemma ShortIdInsideCharacter()
    ensures ShortId("1234567é") == None
  {
    var id := "1234567é";
    assert id == "1234567" + "é";
    AsciiUtf8Len("1234567");
    Utf8LenAppend("1234567", "é");
    assert id[..7] == "1234567";
    PrefixSplitsCharacter(id, 7);
  }

  // ---------------------------------------------------------------------
  // Context and references
  // ---------------------------------------------------------------------

  /** The block one retrieved chunk contributes to the context. */
  function ContextBlock(ctx: HybridContext): string {
    "FRAGMENTO [ID: " + ctx.chunkId + "]\nCONTENIDO: " + ctx.content
    + "\nCONCEPTOS: [" + Join(ctx.connectedEntities, ", ") + "]\n---\n"
  }

  function ContextBlocks(contexts: seq<HybridContext>): (blocks: seq<string>)
    ensures |blocks| == |contexts| && forall i :: 0 <= i < |contexts| ==> blocks[i] == ContextBlock(contexts[i])
  {
    seq(|contexts|, i requires 0 <= i < |contexts| => ContextBlock(contexts[i]))
  }

  /** The reference line of one retrieved chunk. */
  function Reference(shortId: string, ctx: HybridContext): string {
    "Fragmento " + shortId + " (Conceptos: " + Join(ctx.connectedEntities, ", ") + ")"
  }

  predicate AllShortIds(contexts: seq<HybridContext>) {
    forall i :: 0 <= i < |contexts| ==> ShortId(contexts[i].chunkId).Some?
  }

  function References(contexts: seq<HybridContext>): (refs: seq<string>)
    requires AllShortIds(contexts)
    ensures |refs| == |contexts|
    ensures forall i :: 0 <= i < |contexts| ==> refs[i] == Reference(ShortId(contexts[i].chunkId).value, contexts[i])
  {
    seq(|contexts|, i requires 0 <= i < |contexts| => Reference(ShortId(contexts[i].chunkId).value, contexts[i]))
  }

  datatype ChatContext = ChatContext(text: string, references: seq<string>)

  /** `references` are the references of the first chunks, in order. */
  predicate ReferencedUpTo(contexts: seq<HybridContext>, references: seq<string>) {
    |references| <= |contexts| &&
    forall j :: 0 <= j < |references| ==>
      ShortId(contexts[j].chunkId).Some? && references[j] == Reference(ShortId(contexts[j].chunkId).value, contexts[j])
  }

  lemma ReferencedStep(contexts: seq<HybridContext>, references: seq<string>, shortId: string)
    requires ReferencedUpTo(contexts, references) && |references| < |contexts|
    requires ShortId(contexts[|references|].chunkId) == Some(shortId)
    ensures ReferencedUpTo(contexts, references + [Reference(shortId, contexts[|references|])])
  {
  }

  lemma ReferencedAll(contexts: seq<HybridContext>, references: seq<string>)
    requires ReferencedUpTo(contexts, references) && |references| == |contexts|
    ensures AllShortIds(contexts) && references == References(contexts)
  {
  }

  /** Appending the next block keeps the text a prefix of the whole. */
  lemma ConcatStep(blocks: seq<string>, i: nat, text: string)
    requires i < |blocks| && text + Concat(blocks[i..]) == Concat(blocks)
    ensures (text + blocks[i]) + Concat(blocks[i + 1..]) == Concat(blocks)
  {
    assert blocks[i..][0] == blocks[i] && blocks[i..][1..] == blocks[i + 1..];
  }

  /** The loop of the handler: it appends each chunk's block to the context
      and its reference to the list, in retrieval order; `None` is the
      panic of an id that cannot be cut. */
  method BuildContext(contexts: seq<HybridContext>) returns (r: Option<ChatContext>)
    ensures r.Some? <==> AllShortIds(contexts)
    ensures r.Some? ==> r.value.text == Concat(ContextBlocks(contexts))
    ensures r.Some? ==> r.value.references == References(contexts)
  {
    var blocks := ContextBlocks(contexts);
    var text: string := [];
    var references: seq<string> := [];
    for i := 0 to |contexts|
      invariant text + Concat(blocks[i..]) == Concat(blocks)
      invariant |references| == i && ReferencedUpTo(contexts, references)
    {
      var ctx := contexts[i];
      ConcatStep(blocks, i, text);
      text := text + ContextBlock(ctx);
      var shortId := ShortId(ctx.chunkId);
      if shortId.None? {
        return None;
      }
      ReferencedStep(contexts, references, shortId.value);
      references := references + [Reference(shortId.value, ctx)];
    }
    assert blocks[|contexts|..] == [];
    ReferencedAll(contexts, references);
    r := Some(ChatContext(text, references));
  }

  /** Each chunk's block sits in the context text, in retrieval order,
      right after the blocks of the chunks retrieved before it. */
  lemma ContextBlockAt(contexts: seq<HybridContext>, i: nat)
    requires i < |contexts|
    ensures var text := Concat(ContextBlocks(contexts));
            var offset := |Concat(ContextBlocks(contexts)[..i])|;
            offset + |ContextBlock(contexts[i])| <= |text| &&
            text[offset..offset + |ContextBlock(contexts[i])|] == ContextBlock(contexts[i])
  {
    ConcatSlice(ContextBlocks(contexts), i);
  }

  // ---------------------------------------------------------------------
  // The completion request
  // ---------------------------------------------------------------------

  const SystemPromptHead: string :=
    "Eres 'La Muralla'. Responde a la pregunta basándote SOLO en el contexto.\nReglas:\n"
    + "1. Usa [[Concepto]] para entidades del grafo.\n2. Cita fuentes como (Ref: ID_FRAGMENTO).\n"
    + "3. Sé conciso.\n\nCONTEXTO:\n"

  function SystemPrompt(contextText: string): string {
    SystemPromptHead + contextText
  }

  datatype Header = Header(name: string, value: string)

  /** The bytes `HeaderValue::from_str` accepts: visible ASCII, space, tab
      and every byte of a non-ASCII character. */
  predicate HeaderValueChar(c: char) {
    (c as int >= 32 && c as int != 127) || c == '\t'
  }

  /** The request headers: the JSON content type, then the bearer token when
      there is a key that forms a valid header value. */
  function Headers(apiKey: string): seq<Header> {
    var bearer := "Bearer " + apiKey;
    [Header("content-type", "application/json")]
    + (if apiKey != [] && forall i :: 0 <= i < |bearer| ==> HeaderValueChar(bearer[i])
       then [Header("authorization", bearer)] else [])
  }

  /** An Authorization header is sent exactly when the key is non-empty and
      has no control character other than tab; it carries the key as a bearer token. */
  lemma HeadersSpec(apiKey: string)
    ensures Headers(apiKey)[0] == Header("content-type", "application/json")
    ensures (exists h :: h in Headers(apiKey) && h.name == "authorization")
            <==> apiKey != [] && forall i :: 0 <= i < |apiKey| ==> HeaderValueChar(apiKey[i])
    ensures forall h :: h in Headers(apiKey) && h.name == "authorization" ==> h.value == "Bearer " + apiKey
  {
    var bearer := "Bearer " + apiKey;
    assert forall i :: 0 <= i < |apiKey| ==> bearer[i + 7] == apiKey[i];
    assert forall i :: 0 <= i < 7 ==> HeaderValueChar(bearer[i]);
    if apiKey != [] && forall i :: 0 <= i < |apiKey| ==> HeaderValueChar(apiKey[i]) {
      assert forall i :: 0 <= i < |bearer| ==> HeaderValueChar(bearer[i]) by {
        forall i | 0 <= i < |bearer| ensures HeaderValueChar(bearer[i]) {
          if i >= 7 { assert bearer[i] == apiKey[i - 7]; }
        }
      }
      assert Headers(apiKey)[1] == Header("authorization", bearer);
    }
  }

  /** What the completion agent is asked: where, with which headers and
      model, under which system prompt, for which user message. */
  datatype LlmRequest = LlmRequest(baseUrl: string, headers: seq<Header>, model: string, preamble: string, message: string)

  function ChatRequestFor(config: AIConfig, message: string, contextText: string): LlmRequest {
    LlmRequest(BaseUrl(config), Headers(config.apiKey), config.modelName, SystemPrompt(contextText), message)
  }

  // ---------------------------------------------------------------------
  // chat_handler
  // ---------------------------------------------------------------------

  datatype ChatCall =
    | EmbedMessage(text: string)
    | RetrieveContext(embedding: Embedding, limit: nat)
    | Complete(request: LlmRequest)

  datatype ChatOracle = ChatOracle(
    embed: string -> Result<Embedding, AppError>,
    retrieve: (Embedding, nat) -> Result<seq<HybridContext>, AppError>,
    complete: LlmRequest -> Result<string, string>)

  datatype ChatResponse = ChatResponse(response: string, contextUsed: seq<string>)

  datatype ChatOutcome = Answered(reply: ChatResponse) | Failed(error: AppError) | Panicked

  /** `chat_handler` with the configuration the AI service holds. */
  method ChatHandler(config: AIConfig, message: string, o: ChatOracle) returns (out: ChatOutcome, calls: seq<ChatCall>)
    ensures |calls| >= 1 && calls[0] == EmbedMessage(message)
    ensures o.embed(message).Err? ==> out == Failed(o.embed(message).error) && calls == [EmbedMessage(message)]
    ensures o.embed(message).Ok? ==> |calls| >= 2 && calls[1] == RetrieveContext(o.embed(message).value, RetrievalLimit)
    ensures o.embed(message).Ok? && o.retrieve(o.embed(message).value, RetrievalLimit).Err? ==>
              out == Failed(o.retrieve(o.embed(message).value, RetrievalLimit).error) && |calls| == 2
    ensures o.embed(message).Ok? && o.retrieve(o.embed(message).value, RetrievalLimit).Ok? ==>
              var contexts := o.retrieve(o.embed(message).value, RetrievalLimit).value;
              if !AllShortIds(contexts) then out == Panicked && |calls| == 2
              else
                var request := ChatRequestFor(config, message, Concat(ContextBlocks(contexts)));
                calls == [EmbedMessage(message), RetrieveContext(o.embed(message).value, RetrievalLimit), Complete(request)] &&
                out == (if o.complete(request).Ok? then Answered(ChatResponse(o.complete(request).value, References(contexts)))
                        else Failed(AIError("Error generando respuesta: " + o.complete(request).error)))
  {
    calls := [EmbedMessage(message)];
    var embedding := o.embed(message);
    if embedding.Err? {
      return Failed(embedding.error), calls;
    }
    calls := calls + [RetrieveContext(embedding.value, RetrievalLimit)];
    var retrieved := o.retrieve(embedding.value, RetrievalLimit);
    if retrieved.Err? {
      return Failed(retrieved.error), calls;
    }
    var built := BuildContext(retrieved.value);
    if built.None? {
      return Panicked, calls;
    }
    var request := ChatRequestFor(config, message, built.value.text);
    calls := calls + [Complete(request)];
    var answer := o.complete(request);
    if answer.Err? {
      return Failed(AIError("Error generando respuesta: " + answer.error)), calls;
    }
    out := Answered(ChatResponse(answer.value, built.value.references));
  }
}
