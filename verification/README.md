# LaMuralla knowledge-graph backend — Dafny model

LaMuralla is a backend that turns uploaded documents into a knowledge graph
stored in Neo4j. It also answers questions over that graph with an LLM. This
project models its core logic in Dafny 4 and proves properties of the model:

- **Word-safe chunker** (`chunking.dfy`). `split_text_into_chunks` splits a
  document into whitespace-terminated pieces (`split_inclusive`). It packs them
  greedily into chunks of at most 24 000 UTF-8 bytes. The loop is a method
  proved against a greedy-packing specification.
- **Ingestion pipeline** (`ingestion.dfy`). `ingest_with_progress` runs chunk
  by chunk: embed, `save_chunk`, extract, `save_graph`.
  - An embedding failure skips the chunk.
  - An extraction failure warns and continues.
  - A database failure aborts.
  - Progress messages form an append-only log.
- **Graph store** (`graph_store.dfy`). The store is an abstract state: chunks,
  entity name → category, typed edges with their properties, MENTIONS pairs.
  - `save_chunk`, `save_graph` and `save_inferred_relations` are methods of a
    `Neo4jRepo` class that updates that state.
  - They follow the MERGE / ON CREATE semantics and are all-or-nothing
    transactions.
  - The relation-type normaliser is `replace(" ", "_").to_uppercase()`.
- **Query post-processing** (`graph_queries.dfy`). These are the row loops of
  `get_full_graph`, `find_hybrid_context`, `get_concept_neighborhood` and
  `get_graph_context_for_reasoning`, including defaults for missing columns,
  node deduplication, edge orientation, sort-and-dedup, fallback and the
  empty-graph sentence.
- **Reasoning pass** (`reasoning.dfy`). `infer_new_knowledge` fetches the
  context, prompts, infers, and saves only when the batch is non-empty.
- **AI client** (`ai_client.dfy`): `clean_json_response`, configuration
  get/replace, the base-URL default, and the error mapping of
  `generate_embedding` and `extract_knowledge`.
- **Chat handler** (`chat.dfy`). The context blocks and references are built
  from hybrid retrieval, including short ids, the system prompt, the
  conditional Authorization header, and the order of outside calls.
- **Start-up configuration** (`startup.dfy`): environment → `AIConfig`, with
  defaults, the key fallback, a case-insensitive provider, `usize` parsing of
  the dimension, and index creation.

Shared pieces:

- `domain.dfy` holds the records and error type.
- `text.dfy` models the Rust string operations the code relies on:
  - UTF-8 byte length;
  - Unicode `char::is_whitespace` and `trim`;
  - ASCII and Latin-1 case mapping;
  - byte-wise `String` order.

Outside effects are parameters:

- Database answers are row sequences (a missing column is `None`).
- Database failures are a fault naming the failing statement of a
  transaction.
- The embedding, completion and inference endpoints, and the UUIDs, are
  oracle functions.

Where the description of the system and the code differ, the model follows
the code:

- The short id in a chat reference is the first 8 *bytes* of the chunk id,
  not 8 characters. `&id[..8]` panics when byte 8 falls inside a character
  (`ShortIdInsideCharacter`). For the ASCII ids the pipeline generates it is
  the first 8 characters (`ShortIdSpec`).
- The chunk budget counts UTF-8 bytes, not characters.

## Model

A row whose third column starts with "definition" names a function that
defines an operation and has no contract of its own. The properties of that
operation are stated by the lemmas and methods in the rows that follow it.

| member | source | states |
|---|---|---|
| Text.Utf8Len | src/application/ingestion.rs:31 | `str::len`: the byte length lies between the character count and four times it |
| Text.Trim | src/interface/handlers/ingest.rs:91 | `trim` gives a contiguous slice `s[i..j]` of the input that neither starts nor ends with whitespace, and everything before `i` and from `j` on is whitespace |
| Text.ToLower | src/main.rs:79 | ASCII `to_lowercase`: same length, each character lowered on its own |
| Text.StrLeTotal | src/infrastructure/persistence/neo4j_repo.rs:210 | the `String` order used by `sort_by` is total |
| Text.StrLeAntisymmetric | src/infrastructure/persistence/neo4j_repo.rs:210 | two strings each ordered before the other are equal |
| Text.StrLeTransitive | src/infrastructure/persistence/neo4j_repo.rs:210 | the `String` order is transitive |
| Chunking.SplitInclusive | src/application/ingestion.rs:30 | definition of `split_inclusive(char::is_whitespace)`: the text cut just after each whitespace character, the rest forming the last piece; no piece for the empty text |
| Chunking.PackFrom | src/application/ingestion.rs:30-41 | definition of the loop on pieces: a piece closes the current group and starts a new one exactly when the group is non-empty and its byte length plus the piece's exceeds 24 000; a non-empty group left at the end is closed |
| Chunking.Chunks | src/application/ingestion.rs:25-48 | definition of `split_text_into_chunks`: one chunk per packed group, the group's pieces concatenated |
| Chunking.PieceEnd | src/application/ingestion.rs:30 | the end of the first `split_inclusive` piece is just after the first whitespace character, or the end of the text |
| Chunking.SplitInclusiveConcat | src/application/ingestion.rs:30 | the pieces concatenate back to the text, and there are none exactly when the text is empty |
| Chunking.SplitInclusiveWellFormed | src/application/ingestion.rs:30 | every piece is non-empty with whitespace only as its last character, and every piece but the last ends in whitespace |
| Chunking.SplitInclusiveSound | src/application/ingestion.rs:30 | the pieces are non-empty, concatenate back to the text, and each ends in its only whitespace character, except possibly the last, which has none |
| Chunking.ConcatEach | src/application/ingestion.rs:33-40 | each chunk is the concatenation of its group of pieces |
| Chunking.PackKeepsPieces | src/application/ingestion.rs:30-41 | packing loses and reorders no piece: the groups flatten back to the pieces |
| Chunking.PackGroupsNonEmpty | src/application/ingestion.rs:32-40 | no packed group is empty, and there are no groups exactly when there was nothing to pack |
| Chunking.PackGroupsFromInput | src/application/ingestion.rs:30-41 | every piece of every group is one of the pieces that were packed |
| Chunking.PackFirstPiece | src/application/ingestion.rs:30-37 | the first group starts with the first piece |
| Chunking.PackFits | src/application/ingestion.rs:31-37 | a group over the budget consists of one piece |
| Chunking.PackGreedy | src/application/ingestion.rs:31-35 | every group but the last was closed only because the next piece would not fit |
| Chunking.PackEndsInWhitespace | src/application/ingestion.rs:30-37 | every group but the last ends in a whitespace-terminated piece |
| Chunking.PackShort | src/application/ingestion.rs:31-41 | pieces that fit together form one group |
| Chunking.ChunksReassemble | src/application/ingestion.rs:25-48 | concatenating the chunks gives back the text exactly |
| Chunking.ChunksNonEmpty | src/application/ingestion.rs:32-44 | every chunk is non-empty, and there are no chunks exactly when the text is empty |
| Chunking.ChunksWordSafe | src/application/ingestion.rs:30-37 | every chunk but the last ends in whitespace, so no word is cut |
| Chunking.ChunksBounded | src/application/ingestion.rs:31-37 | a chunk is longer than 24 000 bytes only if it is a single piece |
| Chunking.GroupFirstWord | src/application/ingestion.rs:30-37 | the first word of a chunk is its group's first piece |
| Chunking.ChunksGreedy | src/application/ingestion.rs:31-35 | for every chunk but the last, its length plus the next chunk's first word exceeds the budget |
| Chunking.ShortTextIsOneChunk | src/application/ingestion.rs:39-46 | a non-empty text within the budget is one chunk |
| Chunking.CloseStep | src/application/ingestion.rs:31-35 | an iteration that closes the current chunk leaves the rest of the packing unchanged |
| Chunking.ExtendStep | src/application/ingestion.rs:36-37 | an iteration that appends the word to the current chunk leaves the rest of the packing unchanged |
| Chunking.CloseInvariant | src/application/ingestion.rs:31-35 | pushing the current chunk keeps the loop invariant: the pushed chunks are the concatenated closed groups, and the rest of the packing starts afresh |
| Chunking.ExtendInvariant | src/application/ingestion.rs:37 | appending the word keeps the loop invariant: the current chunk is the concatenation of its group and its byte length is the running total |
| Chunking.PackPieces | src/application/ingestion.rs:26-47 | the loop over the pieces yields the concatenation of each group of the packing specification |
| Chunking.ChunksSpec | src/application/ingestion.rs:25-49 | the chunks reassemble the text, are non-empty, end in whitespace except the last, and exceed the budget only as single pieces |
| Chunking.SplitTextIntoChunks | src/application/ingestion.rs:25-49 | the loop computes the specified chunks: reassembly, non-empty, word-safe, bounded |
| GraphStore.NormalizeRelationType | src/infrastructure/persistence/neo4j_repo.rs:68 | definition: `replace(" ", "_")`, then `to_uppercase()`, of the relation type |
| GraphStore.MergeEntities | src/infrastructure/persistence/neo4j_repo.rs:57-62 | definition: the entity MERGE with ON CREATE SET category, run for each extracted entity in order |
| GraphStore.MergeRelations | src/infrastructure/persistence/neo4j_repo.rs:64-74 | definition: for each relation in order, MATCH both entities and MERGE the edge of the normalised kind; nothing when an entity is missing or the edge exists |
| GraphStore.LinkMentions | src/infrastructure/persistence/neo4j_repo.rs:76-82 | definition: when the chunk node exists, a MENTIONS edge from it to every listed name that is an entity; no change when the MATCH finds no chunk |
| GraphStore.SaveGraphEffect | src/infrastructure/persistence/neo4j_repo.rs:54-86 | definition of a committed save_graph: entities merged, then relations against the merged entities, then mentions; chunks unchanged |
| GraphStore.SaveInferredEffect | src/infrastructure/persistence/neo4j_repo.rs:244-265 | definition of a committed save_inferred_relations: the inferred merges applied to the edges in batch order, everything else unchanged |
| GraphStore.ReplaceSpaces | src/infrastructure/persistence/neo4j_repo.rs:68 | `replace(" ", "_")`: every space becomes an underscore, everything else is kept |
| GraphStore.ToUpperProperties | src/infrastructure/persistence/neo4j_repo.rs:68 | upper-casing text without spaces leaves no space and no ASCII lower-case letter, and is idempotent |
| GraphStore.ToUpperAppend | src/infrastructure/persistence/neo4j_repo.rs:68 | upper-casing distributes over concatenation |
| GraphStore.ToUpperFixed | src/infrastructure/persistence/neo4j_repo.rs:68 | text of characters that upper-case to themselves is unchanged |
| GraphStore.NormalizeRelationTypeSpec | src/infrastructure/persistence/neo4j_repo.rs:68 | the edge kind has no space and no lower-case ASCII letter, and normalising twice changes nothing |
| GraphStore.NormalizeSameAs | src/infrastructure/persistence/neo4j_repo.rs:68 | "same as" is stored as the edge kind SAME_AS |
| GraphStore.MergeEntitiesSpec | src/infrastructure/persistence/neo4j_repo.rs:57-62 | one node per name: existing nodes keep their category, a new name gets the category of its first mention |
| GraphStore.MergeRelationsSpec | src/infrastructure/persistence/neo4j_repo.rs:64-74 | existing edges are untouched; an edge is added exactly for relations whose two entities exist |
| GraphStore.MergeRelationsPresent | src/infrastructure/persistence/neo4j_repo.rs:64-74 | merging edges that already exist changes nothing |
| GraphStore.MergeRelationsIdempotent | src/infrastructure/persistence/neo4j_repo.rs:64-74 | merging the same relations twice duplicates nothing |
| GraphStore.EntityNames | src/infrastructure/persistence/neo4j_repo.rs:80 | the names passed to the MENTIONS query, in order |
| GraphStore.SaveGraphMentions | src/infrastructure/persistence/neo4j_repo.rs:76-82 | save_graph adds a MENTIONS edge from the chunk to every entity named in the extraction, and no other mention |
| GraphStore.FirstCategoryWins | src/infrastructure/persistence/neo4j_repo.rs:57-62 | an entity saved twice with different categories keeps the first |
| GraphStore.MergeInferredAllSpec | src/infrastructure/persistence/neo4j_repo.rs:247-261 | existing edges are unchanged; each new edge is INFERRED_-prefixed, between existing entities, AI-generated, and carries the reasoning of the first relation of the batch with both ends present and that key (ON CREATE SET); every relation with both ends present yields its edge |
| GraphStore.MergeInferredAllOrigin | src/infrastructure/persistence/neo4j_repo.rs:249-251 | a new inferred edge carries the reasoning of the first linkable relation of the batch with its key; later duplicates do not overwrite it |
| GraphStore.MergeInferredAllKeeps | src/infrastructure/persistence/neo4j_repo.rs:250 | MERGE keeps every existing edge with its properties |
| GraphStore.SaveInferredAdditive | src/infrastructure/persistence/neo4j_repo.rs:244-265 | save_inferred_relations changes only edges, and only by adding them |
| GraphStore.InferTransitiveExample | src/infrastructure/persistence/neo4j_repo.rs:247-261 | A-CAUSES->B-IMPLIES->C gains exactly the edge INFERRED_LLEVA_A from A to C |
| GraphStore.NormalizeLlevaA | src/infrastructure/persistence/neo4j_repo.rs:252 | an already normal relation name is kept |
| GraphStore.Neo4jRepo.constructor | src/infrastructure/persistence/neo4j_repo.rs:44-52 | the repository starts from the given store |
| GraphStore.Neo4jRepo.SaveChunk | src/infrastructure/persistence/neo4j_repo.rs:44-52 | a failing CREATE is a DatabaseError with the store unchanged; otherwise the chunk is appended |
| GraphStore.Neo4jRepo.SaveGraph | src/infrastructure/persistence/neo4j_repo.rs:54-86 | fails exactly when a statement up to the commit fails, as a DatabaseError with the store unchanged; otherwise the merges and mentions are applied |
| GraphStore.Neo4jRepo.SaveInferredRelations | src/infrastructure/persistence/neo4j_repo.rs:244-265 | all-or-nothing: a failing statement is a DatabaseError with the store unchanged; otherwise every inferred merge is applied |
| GraphQueries.FirstSeen | src/infrastructure/persistence/neo4j_repo.rs:99-113 | definition of the `HashSet::insert` guard: candidates in order, each kept when its id is neither in `seen` nor the id of an earlier kept node |
| GraphQueries.DedupById | src/infrastructure/persistence/neo4j_repo.rs:211 | definition of `dedup_by` comparing ids: of each run of consecutive nodes with the same id only the first stays |
| GraphQueries.ContextText | src/infrastructure/persistence/neo4j_repo.rs:229-241 | definition: the rows' `(n) -[r]-> (m)` lines concatenated, or "El grafo está vacío." when that text is empty |
| GraphQueries.IdSetCons | src/infrastructure/persistence/neo4j_repo.rs:108-113 | the ids of a node list are its head's id plus the tail's ids |
| GraphQueries.OfferedStep | src/infrastructure/persistence/neo4j_repo.rs:108-113 | one guarded `seen.insert` and push is one step of first-seen de-duplication |
| GraphQueries.FirstSeenIds | src/infrastructure/persistence/neo4j_repo.rs:99-113 | the HashSet-guarded loop keeps exactly the ids not seen before |
| GraphQueries.FirstSeenDistinct | src/infrastructure/persistence/neo4j_repo.rs:99-113 | the kept node ids are unique |
| GraphQueries.FirstSeenFirst | src/infrastructure/persistence/neo4j_repo.rs:108-113 | each kept node is the first candidate with its id |
| GraphQueries.FullCandidatesContain | src/infrastructure/persistence/neo4j_repo.rs:101-113 | both endpoints of every row are candidate nodes |
| GraphQueries.FullGraphSpec | src/infrastructure/persistence/neo4j_repo.rs:97-118 | node ids are unique, every edge endpoint is a node, and a node keeps the first category seen for it |
| GraphQueries.GetFullGraph | src/infrastructure/persistence/neo4j_repo.rs:88-119 | a query error is a DatabaseError; otherwise the deduplicated nodes and one edge per row, in row order, with the column defaults |
| GraphQueries.FindHybridContext | src/infrastructure/persistence/neo4j_repo.rs:121-147 | one HybridContext per row, in order, with the defaults "unk", "" and [] |
| GraphQueries.NeighborEdgeOrientation | src/infrastructure/persistence/neo4j_repo.rs:188-194 | the edge runs centre→neighbour exactly when is_source holds (default true) |
| GraphQueries.InsertById | src/infrastructure/persistence/neo4j_repo.rs:210 | insertion keeps every node (multiset) |
| GraphQueries.SortById | src/infrastructure/persistence/neo4j_repo.rs:210 | the sort is a permutation |
| GraphQueries.InsertByIdSorted | src/infrastructure/persistence/neo4j_repo.rs:210 | inserting into a sorted list keeps it sorted |
| GraphQueries.SortByIdSorted | src/infrastructure/persistence/neo4j_repo.rs:210 | the sorted nodes are in id order |
| GraphQueries.DedupByIdSpec | src/infrastructure/persistence/neo4j_repo.rs:211 | `dedup_by` on a sorted list yields strictly increasing ids, the same id set and the same first node |
| GraphQueries.StrictIdsBelow | src/infrastructure/persistence/neo4j_repo.rs:210-211 | in a strictly sorted list the head is below every later node |
| GraphQueries.StrictIdsDistinct | src/infrastructure/persistence/neo4j_repo.rs:210-211 | strictly sorted ids are unique |
| GraphQueries.NeighborCandidatesContain | src/infrastructure/persistence/neo4j_repo.rs:167-185 | the centre and the neighbour of every row are candidates |
| GraphQueries.NeighborhoodSorted | src/infrastructure/persistence/neo4j_repo.rs:210-211 | after sort and dedup the ids are strictly increasing, unique and the same set as collected |
| GraphQueries.NeighborhoodEdgeEnds | src/infrastructure/persistence/neo4j_repo.rs:167-195 | both ends of every row's edge are among the collected node ids |
| GraphQueries.NeighborhoodSpec | src/infrastructure/persistence/neo4j_repo.rs:151-214 | the nodes are sorted by id without duplicates and include every row's two ends; with no rows, the fallback centre alone or nothing |
| GraphQueries.CollectNeighborRows | src/infrastructure/persistence/neo4j_repo.rs:167-195 | the row loop: first-seen nodes, and one oriented edge per row |
| GraphQueries.GetConceptNeighborhood | src/infrastructure/persistence/neo4j_repo.rs:151-214 | query errors are DatabaseErrors; the fallback is queried only when there is no row; sorted, deduplicated nodes and one edge per row |
| GraphQueries.ContextLine | src/infrastructure/persistence/neo4j_repo.rs:235 | each line ends in a newline |
| GraphQueries.ContextLines | src/infrastructure/persistence/neo4j_repo.rs:231-236 | one line per row, in order |
| GraphQueries.ConcatLinesEndsInNewline | src/infrastructure/persistence/neo4j_repo.rs:235-238 | newline-terminated lines never concatenate to empty text |
| GraphQueries.ContextTextSpec | src/infrastructure/persistence/neo4j_repo.rs:229-241 | the context is "El grafo está vacío." exactly when there are no rows, and otherwise the rows' lines |
| GraphQueries.ContextLineAt | src/infrastructure/persistence/neo4j_repo.rs:231-236 | each row's line sits in the context after the lines of earlier rows |
| GraphQueries.GetGraphContextForReasoning | src/infrastructure/persistence/neo4j_repo.rs:218-242 | a query error is a DatabaseError; otherwise the push_str loop yields the specified context |
| Ingestion.Run | src/application/ingestion.rs:65-104 | definition of the chunk loop from chunk k: embedding message; a failed embedding warns and skips the chunk; save_chunk, whose error aborts; extraction message; a failed extraction warns and moves on; linking message with the entity count; save_graph, whose error aborts; after the last chunk the completion message |
| Ingestion.Ingest | src/application/ingestion.rs:55-104 | definition of `ingest_with_progress` on the store: split the content, send the split message with the chunk count, run the chunk loop from chunk 0 |
| Ingestion.RunWithoutDbFaults | src/application/ingestion.rs:65-107 | with no database failure the run succeeds, stores one chunk per embedded chunk, and ends with the completion message |
| Ingestion.SavedChunksAll | src/application/ingestion.rs:76-86 | when every embedding succeeds every chunk is stored, in order |
| Ingestion.RunKeepsLog | src/application/ingestion.rs:62-70 | earlier messages stay a prefix of the log, and each chunk starts with its "Generando Embeddings" message |
| Ingestion.RunAbort | src/application/ingestion.rs:86-104 | a save_chunk or save_graph error aborts with a DatabaseError; the last message announces the failing write, no later chunk is processed and no completion message is sent |
| Ingestion.RunAbortCause | src/application/ingestion.rs:86-95 | on an abort at chunk j the error is that of the failing write: save_chunk's message after the embedding message, save_graph's after the linking message; the store is the one left by the earlier chunks, plus chunk j itself exactly when save_graph failed |
| Ingestion.AbortCauseLift | src/application/ingestion.rs:65-102 | a chunk processed without a failing write leaves the cause of a later abort unchanged, with its own effect folded into the store before the failure |
| Ingestion.AbortAfterSkip | src/application/ingestion.rs:76-81 | a skipped chunk (failed embedding) keeps the shape of a later abort |
| Ingestion.AbortAfterWarning | src/application/ingestion.rs:97-100 | a chunk whose extraction failed keeps the shape of a later abort |
| Ingestion.AbortAfterLinked | src/application/ingestion.rs:92-95 | a chunk whose graph was saved keeps the shape of a later abort |
| Ingestion.RunCompletes | src/application/ingestion.rs:104 | the completion message is sent, last, exactly when the run succeeds |
| Ingestion.EmbeddingFailureSkips | src/application/ingestion.rs:76-81 | an embedding failure warns with the chunk's step and moves on without saving or extracting: the chunk's effect on the store is nothing |
| Ingestion.ExtractionFailureContinues | src/application/ingestion.rs:86-100 | an extraction failure keeps the saved chunk, skips save_graph (no entity, edge or mention is added), warns and moves on |
| Ingestion.AcceptedContentIsProcessed | src/interface/handlers/ingest.rs:91 | content that passes the length gate yields at least one chunk, and the first chunk is started |
| Ingestion.RunStartsLog | src/application/ingestion.rs:62-70 | a run over at least one chunk sends the split message and then the first embedding message |
| Ingestion.IngestWithProgress | src/application/ingestion.rs:51-108 | the repository ends in the run's store, the log is the run's messages, and the result is the group id or the aborting error |
| Reasoning.InferNewKnowledge | src/application/reasoning.rs:19-55 | definition of `infer_new_knowledge`: fetch the context with limit 300, build the prompt around it, ask the AI, save the batch iff it is non-empty and return it; each `?` returns its error at once |
| Reasoning.PromptContainsContext | src/application/reasoning.rs:24-43 | the prompt carries the context verbatim after the fixed head |
| Reasoning.ContextFirst | src/application/reasoning.rs:21-47 | the context is fetched once, first, with limit 300, and the AI is asked next with that prompt |
| Reasoning.ErrorsPropagate | src/application/reasoning.rs:21-51 | every error is returned as is and leaves the store untouched; a failed inference saves nothing |
| Reasoning.SaveIffNonEmpty | src/application/reasoning.rs:50-54 | the save is called once with the whole batch iff the batch is non-empty, and success returns exactly that batch |
| AIClient.StripFences | src/infrastructure/ai/rig_client.rs:24-26 | definition: `trim_start_matches("```json")`, then `trim_start_matches("```")`, then `trim_end_matches("```")` |
| AIClient.CleanJsonResponse | src/infrastructure/ai/rig_client.rs:22-28 | definition of `clean_json_response`: `trim`, then the fence stripping |
| AIClient.TrimStartMatches | src/infrastructure/ai/rig_client.rs:24-25 | the result is a suffix of the input that no longer starts with the pattern, or the input itself when it did not start with it |
| AIClient.TrimStartMatchesCopies | src/infrastructure/ai/rig_client.rs:24-25 | what `trim_start_matches` cuts away is `n` copies of the pattern: the input is `Repeat(p, n)` followed by the result |
| AIClient.TrimEndMatches | src/infrastructure/ai/rig_client.rs:26 | the result is a prefix of the input that no longer ends with the pattern, or the input itself when it did not end with it |
| AIClient.TrimEndMatchesCopies | src/infrastructure/ai/rig_client.rs:26 | what `trim_end_matches` cuts away is `n` copies of the pattern: the input is the result followed by `Repeat(p, n)` |
| AIClient.PrefixNotStarting | src/infrastructure/ai/rig_client.rs:25-26 | trimming the end cannot make a fence appear at the start |
| AIClient.StartsWithLonger | src/infrastructure/ai/rig_client.rs:24-25 | text starting with "```json" starts with "```" |
| AIClient.StripFencesSlice | src/infrastructure/ai/rig_client.rs:24-26 | the stripped text is a contiguous piece of its input |
| AIClient.StripFencesSpec | src/infrastructure/ai/rig_client.rs:24-26 | the stripped text neither starts nor ends with a fence and is a contiguous piece of its input |
| AIClient.StripFencesNoFence | src/infrastructure/ai/rig_client.rs:24-27 | text without fences is unchanged |
| AIClient.CleanJsonResponseSpec | src/infrastructure/ai/rig_client.rs:22-28 | `clean_json_response` never starts or ends with "```", is a substring of the trimmed input, and equals it when there are no fences |
| AIClient.CleanJsonResponseExample | src/infrastructure/ai/rig_client.rs:22-28 | a fenced JSON answer loses both fences |
| AIClient.BaseUrl | src/infrastructure/ai/rig_client.rs:35 | the configured base URL, or "https://api.openai.com/v1" when none is set |
| AIClient.RigAIService.constructor | src/infrastructure/ai/rig_client.rs:18-20 | the service holds the given configuration |
| AIClient.RigAIService.UpdateConfig | src/infrastructure/ai/rig_client.rs:42-50 | always Ok, and the next get_config returns the new configuration |
| AIClient.GenerateEmbedding | src/infrastructure/ai/rig_client.rs:52-72 | the first embedding of the first document, else an AIError naming the missing document or embedding |
| AIClient.ExtractKnowledge | src/infrastructure/ai/rig_client.rs:74-92 | a prompt failure is an AIError; an undecodable cleaned answer is a ParseError quoting it; otherwise the decoded extraction |
| Chat.ShortId | src/interface/handlers/chat.rs:49 | definition: the first 8 bytes of an id longer than 8 bytes, the whole id otherwise; `None` where the byte slice would panic |
| Chat.PrefixOfBytes | src/interface/handlers/chat.rs:49 | a byte slice `[..n]`, when defined, is a prefix of exactly n bytes; it is undefined (the slice panics) exactly when no prefix of the string is n bytes long |
| Chat.NoBoundaryCons | src/interface/handlers/chat.rs:49 | no prefix has n bytes when the first character alone is longer than n, or when no prefix of the rest has the remaining bytes |
| Chat.AsciiUtf8Len | src/interface/handlers/chat.rs:49 | an ASCII id has one byte per character |
| Chat.AsciiPrefixOfBytes | src/interface/handlers/chat.rs:49 | an ASCII id is cut at the n-th character |
| Chat.ShortIdSpec | src/interface/handlers/chat.rs:49 | the short id is a prefix of at most 8 bytes; a short id is kept whole; an ASCII id gives its first 8 characters |
| Chat.PrefixSplitsCharacter | src/interface/handlers/chat.rs:49 | a cut inside a multi-byte character is undefined |
| Chat.ShortIdInsideCharacter | src/interface/handlers/chat.rs:49 | an id with "é" across byte 8 makes the slice panic |
| Chat.ContextBlocks | src/interface/handlers/chat.rs:43-48 | one block per retrieved chunk, in order |
| Chat.References | src/interface/handlers/chat.rs:49-50 | one reference per retrieved chunk, in order, with its short id and joined entities |
| Chat.BuildContext | src/interface/handlers/chat.rs:40-51 | the loop yields the blocks' concatenation and the references, or panics exactly when an id cannot be cut |
| Chat.ContextBlockAt | src/interface/handlers/chat.rs:43-48 | each chunk's block sits in the context after the blocks of the earlier chunks |
| Chat.Headers | src/interface/handlers/chat.rs:68-76 | definition: the content type application/json, then Authorization "Bearer key" when the key is non-empty and that value is a valid header value |
| Chat.HeadersSpec | src/interface/handlers/chat.rs:68-76 | content-type always; Authorization "Bearer key" exactly when the key is non-empty and a valid header value |
| Chat.ChatHandler | src/interface/handlers/chat.rs:28-96 | embed, then retrieve 3 on that embedding, then one completion with the built prompt; earlier errors return before the LLM call, and an LLM error becomes "Error generando respuesta: …" |
| Startup.ParseUsize | src/main.rs:73-76 | definition of `parse::<usize>()`: an optional '+', then one or more ASCII digits whose value is below 2^64; anything else is an error |
| Startup.ProviderFrom | src/main.rs:79-83 | definition: the name lower-cased; "ollama" gives Ollama, "groq" gives Groq, anything else OpenAI |
| Startup.ApiKeyFrom | src/main.rs:67-69 | definition: AI_API_KEY, else OPENAI_API_KEY, else the empty string |
| Startup.ConfigFromEnv | src/main.rs:66-92 | definition of the initial AIConfig: each field from its variable or its default; `None` where `expect` on the dimension panics |
| Startup.StartUp | src/main.rs:66-105 | definition of start-up up to the indexes: a panic on a bad dimension, otherwise the configuration, create_indexes with its dimension, and a warning when that fails |
| Startup.Var | src/main.rs:66-77 | a lookup is defined exactly for set variables |
| Startup.ShowNat | src/main.rs:73-76 | decimal rendering is non-empty digits |
| Startup.ShowNatValue | src/main.rs:73-76 | the rendered digits have the number's value |
| Startup.ParseShowRoundTrip | src/main.rs:73-76 | every `usize` written in decimal parses back to itself |
| Startup.ParseUsizeSpec | src/main.rs:73-76 | a parsed dimension fits a `usize` and came from digits with at most a leading '+'; the empty string does not parse |
| Startup.DefaultDimParses | src/main.rs:74 | the default "1536" parses to 1536 |
| Startup.ToLowerIdempotent | src/main.rs:79 | lower-casing twice changes nothing |
| Startup.ProviderFromSpec | src/main.rs:66-83 | the choice ignores case; "ollama" and "groq" select their providers; anything else, the default included, selects OpenAI |
| Startup.ProviderExamples | src/main.rs:79-83 | "OLLAMA" → Ollama, "Groq" → Groq, "anthropic" → OpenAI |
| Startup.ConfigFromEnvSpec | src/main.rs:66-92 | start-up panics exactly on a set, non-numeric dimension; otherwise each set variable (AI_PROVIDER parsed, AI_MODEL, AI_EMBEDDING_MODEL, AI_EMBEDDING_DIM, AI_BASE_URL) is taken, each unset one defaults, the key falls back to OPENAI_API_KEY then empty, and base_url is None exactly when unset |
| Startup.EmptyEnvironment | src/main.rs:66-92 | an empty environment gives OpenAI, gpt-4o, text-embedding-3-small, no key, 1536, no base URL |
| Startup.ConfigEnvRoundTrip | src/main.rs:66-92 | every configuration with a `usize` dimension is reproduced from its spelled-out environment |
| Startup.StartUpSpec | src/main.rs:73-105 | only the dimension panics; the index gets the configured dimension, and its failure is only a warning |

## Left out

- Cypher execution is not modelled. This covers the vector index and cosine
  ranking of `find_hybrid_context`, `ORDER BY degree` and the LIMITs. Query
  results are given row sequences.
- `create_indexes` and `reset_database` (schema DDL and a full wipe) are not
  modelled. Start-up only records the dimension handed to `create_indexes` and
  the warning its failure causes.
- A stream error in the middle of a `while let Ok(Some(row))` loop is treated
  as the end of the rows. A relation type that is not a valid Cypher label is
  one more statement fault.
- Embedding vectors are sequences of reals. The `f64`→`f32` conversion is
  not modelled.
- The LLM and embedding SDK calls, JSON decoding and `generate_inference` are
  oracles. The wording of the prompts is carried as constants only.
- `RwLock`, `tokio::spawn`, the mpsc channel and the upload handler's
  multipart plumbing are not modelled. Progress is a log whose sends never
  fail. UUIDs come from an oracle.
- The Neo4j connection variables and everything in `src/main.rs` from line 94
  on, apart from `create_indexes`, are not modelled. The same goes for the
  UI, graph and reasoning HTTP wrappers, the document parsers and the trait
  declarations.
- `to_uppercase` is modelled for ASCII and Latin-1 (including "ß" → "SS").
  Other scripts are left unchanged.
- `to_lowercase` is modelled for ASCII. No other character lowers into a
  letter of "ollama" or "groq", so the provider choice is unaffected.
- `std::env::var` failing on a value that is not valid Unicode is not
  modelled. Values are strings.
- Chunking.ChunksGreedy: the greedy-boundary property is proved, but the
  minimality of the number of chunks is not.
- The fallback `chunks.push(text.to_string())` of `split_text_into_chunks` is
  never reached: `ChunksNonEmpty` shows the loop already yields a chunk for
  every non-empty text.
