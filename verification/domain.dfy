/** Shared data model of the knowledge-graph backend: the wrappers used for
    error returns, the application error type, and the records that travel
    between the AI capability, the graph repository and the handlers. */
module Domain {

  /** Rust's Option. */
  datatype Option<+T> = None | Some(value: T) {
    function GetOr(default: T): T {
      match this
      case Some(v) => v
      case None => default
    }
  }

  /** Rust's Result<T, E>. */
  datatype Result<+T, +E> = Ok(value: T) | Err(error: E)

  /** A Result<(), E>. */
  datatype Outcome<+E> = Pass | Fail(error: E)

  /** AppError: the variants the modelled code produces, each with its message. */
  datatype AppError =
    | DatabaseError(message: string)
    | AIError(message: string)
    | ParseError(message: string)

  /** An embedding vector; its f64 -> f32 rounding is not modelled. */
  type Embedding = seq<real>

  /** One entity of a knowledge extraction. */
  datatype ExtractedEntity = ExtractedEntity(name: string, category: string)

  /** One relation of a knowledge extraction. */
  datatype ExtractedRelation = ExtractedRelation(source: string, target: string, relationType: string)

  /** KnowledgeExtraction: what the AI reads out of one chunk. */
  datatype KnowledgeExtraction = KnowledgeExtraction(entities: seq<ExtractedEntity>, relations: seq<ExtractedRelation>)

  /** InferredRelation: an edge proposed by the reasoning pass. */
  datatype InferredRelation = InferredRelation(source: string, target: string, relation: string, reasoning: string)

  /** HybridContext: a retrieved chunk with the names of the entities it mentions. */
  datatype HybridContext = HybridContext(chunkId: string, content: string, connectedEntities: seq<string>)

  /** Nodes and edges handed to the visualisation (`labelText` is the Rust field `label`, a Dafny keyword). */
  datatype VisNode = VisNode(id: string, labelText: string, group: string)
  datatype VisEdge = VisEdge(from: string, to: string, labelText: string)
  datatype GraphDataResponse = GraphDataResponse(nodes: seq<VisNode>, edges: seq<VisEdge>)

  /** The AI providers the configuration can select. */
  datatype AIProvider = OpenAI | Groq | Ollama

  /** AIConfig; `embeddingDim` is a usize. */
  datatype AIConfig = AIConfig(
    provider: AIProvider,
    modelName: string,
    embeddingModel: string,
    apiKey: string,
    embeddingDim: nat,
    baseUrl: Option<string>)

  /** The Debug rendering of a provider, as it appears in error messages. */
  function ProviderName(p: AIProvider): string {
    match p
    case OpenAI => "OpenAI"
    case Groq => "Groq"
    case Ollama => "Ollama"
  }
}
