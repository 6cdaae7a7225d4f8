/** The ingestion pipeline (`IngestionService::ingest_with_progress`,
    src/application/ingestion.rs): split the document into chunks, then for
    each chunk compute its embedding, store it, extract knowledge from it and
    store the extracted graph, reporting progress on a channel.

    The AI service and the database are outside the model: what they answer
    for chunk k is read from an `IngestOracle`, and the fresh UUIDs are part
    of it too. The progress channel is an append-only log whose sends never
    fail. The repository is the `Neo4jRepo` of the graph store. */
module Ingestion {
  import opened Domain
  import opened Text
  import opened Chunking
  import opened GraphStore

  /** The progress messages, one constructor per `progress_tx.send`. */
  datatype Progress =
    | DocumentSplit(total: nat)
    | GeneratingEmbeddings(step: nat, total: nat)
    | EmbeddingSkipped(step: nat, err: AppError)
    | ExtractingKnowledge(step: nat, total: nat)
    | ConnectingEntities(step: nat, total: nat, count: nat)
    | ExtractionWarning(step: nat, err: AppError)
    | Completed

  /** The chunk number a message is about (1-based); 0 for the first and last messages. */
  function StepOf(p: Progress): nat {
    match p
    case DocumentSplit(_) => 0
    case GeneratingEmbeddings(step, _) => step
    case EmbeddingSkipped(step, _) => step
    case ExtractingKnowledge(step, _) => step
    case ConnectingEntities(step, _, _) => step
    case ExtractionWarning(step, _) => step
    case Completed => 0
  }

  /** What the outside world answers while chunk k (0-based) is processed:
      its fresh id, the embedding call, the save_chunk statement, the
      extraction call and the save_graph transaction. */
  datatype IngestOracle = IngestOracle(
    groupId: string,
    chunkId: nat -> string,
    embed: nat -> Result<Embedding, AppError>,
    saveChunkFault: nat -> Option<string>,
    extract: nat -> Result<KnowledgeExtraction, AppError>,
    saveGraphFault: nat -> Option<DbFault>)

  datatype RunResult = RunResult(outcome: Outcome<AppError>, store: StoreState, log: seq<Progress>)

  /** Processing chunks k.. from store `s` with `log` sent so far. */
  function Run(o: IngestOracle, chunks: seq<string>, k: nat, s: StoreState, log: seq<Progress>): RunResult
    requires k <= |chunks|
    decreases |chunks| - k
  {
    if k == |chunks| then RunResult(Pass, s, log + [Completed])
    else
      var step, total := k + 1, |chunks|;
      var log1 := log + [GeneratingEmbeddings(step, total)];
      match o.embed(k)
      case Err(e) => Run(o, chunks, k + 1, s, log1 + [EmbeddingSkipped(step, e)])
      case Ok(emb) =>
        if o.saveChunkFault(k).Some? then RunResult(Fail(DatabaseError(o.saveChunkFault(k).value)), s, log1)
        else
          var s1 := SaveChunkEffect(s, o.chunkId(k), chunks[k], emb);
          var log2 := log1 + [ExtractingKnowledge(step, total)];
          match o.extract(k)
          case Err(e) => Run(o, chunks, k + 1, s1, log2 + [ExtractionWarning(step, e)])
          case Ok(x) =>
            var log3 := log2 + [ConnectingEntities(step, total, |x.entities|)];
            if SaveGraphFails(x, o.saveGraphFault(k)) then
              RunResult(Fail(DatabaseError(o.saveGraphFault(k).value.message)), s1, log3)
            else Run(o, chunks, k + 1, SaveGraphEffect(s1, o.chunkId(k), x), log3)
  }

  /** The whole ingestion of `content` from store `s`. */
  function Ingest(o: IngestOracle, content: string, s: StoreState): RunResult {
    var chunks := Chunks(content);
    Run(o, chunks, 0, s, [DocumentSplit(|chunks|)])
  }

  /** What processing chunk k does to the store when none of its writes
      fails: nothing when its embedding fails, its chunk alone when the
      extraction fails, its chunk and its graph otherwise. */
  function ChunkEffect(o: IngestOracle, chunks: seq<string>, k: nat, s: StoreState): StoreState
    requires k < |chunks|
  {
    match o.embed(k)
    case Err(_) => s
    case Ok(emb) =>
      var s1 := SaveChunkEffect(s, o.chunkId(k), chunks[k], emb);
      match o.extract(k)
      case Err(_) => s1
      case Ok(x) => SaveGraphEffect(s1, o.chunkId(k), x)
  }

  /** The store once chunks k..j-1 have been processed without a failing write. */
  function StoreThrough(o: IngestOracle, chunks: seq<string>, k: nat, j: nat, s: StoreState): StoreState
    requires k <= j <= |chunks|
    decreases j - k
  {
    if k == j then s else StoreThrough(o, chunks, k + 1, j, ChunkEffect(o, chunks, k, s))
  }

  /** The chunks stored when no database write fails: each chunk whose
      embedding succeeded, in order, under its fresh id. */
  function SavedChunks(o: IngestOracle, chunks: seq<string>, k: nat): seq<StoredChunk>
    requires k <= |chunks|
    decreases |chunks| - k
  {
    if k == |chunks| then []
    else if o.embed(k).Ok? then [StoredChunk(o.chunkId(k), chunks[k], o.embed(k).value)] + SavedChunks(o, chunks, k + 1)
    else SavedChunks(o, chunks, k + 1)
  }

  predicate NoDbFaults(o: IngestOracle, chunks: seq<string>, k: nat) {
    forall j :: k <= j < |chunks| ==> o.saveChunkFault(j).None? && o.saveGraphFault(j).None?
  }

  /** Failure policy, whole run: when no database write fails the run ends
      with the completion message, and the stored chunks are exactly those
      whose embedding succeeded, whatever the extractions did. */
  lemma {:induction false} RunWithoutDbFaults(o: IngestOracle, chunks: seq<string>, k: nat, s: StoreState, log: seq<Progress>)
    requires k <= |chunks| && NoDbFaults(o, chunks, k)
    ensures Run(o, chunks, k, s, log).outcome == Pass
    ensures Run(o, chunks, k, s, log).store.chunks == s.chunks + SavedChunks(o, chunks, k)
    ensures |Run(o, chunks, k, s, log).log| > 0 && Run(o, chunks, k, s, log).log[|Run(o, chunks, k, s, log).log| - 1] == Completed
    decreases |chunks| - k
  {
    if k < |chunks| {
      var step, total := k + 1, |chunks|;
      var log1 := log + [GeneratingEmbeddings(step, total)];
      if o.embed(k).Err? {
        RunWithoutDbFaults(o, chunks, k + 1, s, log1 + [EmbeddingSkipped(step, o.embed(k).error)]);
      } else {
        var s1 := SaveChunkEffect(s, o.chunkId(k), chunks[k], o.embed(k).value);
        var log2 := log1 + [ExtractingKnowledge(step, total)];
        var saved := StoredChunk(o.chunkId(k), chunks[k], o.embed(k).value);
        if o.extract(k).Err? {
          RunWithoutDbFaults(o, chunks, k + 1, s1, log2 + [ExtractionWarning(step, o.extract(k).error)]);
        } else {
          var x := o.extract(k).value;
          var log3 := log2 + [ConnectingEntities(step, total, |x.entities|)];
          RunWithoutDbFaults(o, chunks, k + 1, SaveGraphEffect(s1, o.chunkId(k), x), log3);
        }
        assert s.chunks + [saved] + SavedChunks(o, chunks, k + 1) == s.chunks + SavedChunks(o, chunks, k);
      }
    }
  }

  /** When every embedding succeeds and no write fails, one chunk is stored per chunk of the text. */
  lemma {:induction false} SavedChunksAll(o: IngestOracle, chunks: seq<string>, k: nat)
    requires k <= |chunks|
    requires forall j :: k <= j < |chunks| ==> o.embed(j).Ok?
    ensures |SavedChunks(o, chunks, k)| == |chunks| - k
    ensures forall j :: k <= j < |chunks| ==> SavedChunks(o, chunks, k)[j - k].content == chunks[j]
    decreases |chunks| - k
  {
    if k < |chunks| {
      SavedChunksAll(o, chunks, k + 1);
    }
  }

  /** A run keeps the messages already sent as a prefix of its log. */
  lemma {:induction false} RunKeepsLog(o: IngestOracle, chunks: seq<string>, k: nat, s: StoreState, log: seq<Progress>)
    requires k <= |chunks|
    ensures |Run(o, chunks, k, s, log).log| > |log|
    ensures Run(o, chunks, k, s, log).log[..|log|] == log
    ensures k < |chunks| ==> Run(o, chunks, k, s, log).log[|log|] == GeneratingEmbeddings(k + 1, |chunks|)
    decreases |chunks| - k
  {
    if k < |chunks| {
      var step, total := k + 1, |chunks|;
      var log1 := log + [GeneratingEmbeddings(step, total)];
      if o.embed(k).Err? {
        RunKeepsLog(o, chunks, k + 1, s, log1 + [EmbeddingSkipped(step, o.embed(k).error)]);
      } else if o.saveChunkFault(k).None? {
        var s1 := SaveChunkEffect(s, o.chunkId(k), chunks[k], o.embed(k).value);
        var log2 := log1 + [ExtractingKnowledge(step, total)];
        if o.extract(k).Err? {
          RunKeepsLog(o, chunks, k + 1, s1, log2 + [ExtractionWarning(step, o.extract(k).error)]);
        } else {
          var x := o.extract(k).value;
          var log3 := log2 + [ConnectingEntities(step, total, |x.entities|)];
          if !SaveGraphFails(x, o.saveGraphFault(k)) {
            RunKeepsLog(o, chunks, k + 1, SaveGraphEffect(s1, o.chunkId(k), x), log3);
          }
        }
      }
    }
  }

  /** What an aborted run looks like from the messages in `log` on: the
      error is a DatabaseError, at least one message was sent, the last one
      announces the failing write of a chunk after the first k, no message
      after `log` is the completion message, and none is about a later chunk. */
  predicate AbortShape(run: RunResult, log: seq<Progress>, k: nat) {
    run.outcome.Fail? ==>
      run.outcome.error.DatabaseError? &&
      |run.log| > |log| &&
      StepOf(run.log[|run.log| - 1]) > k &&
      (run.log[|run.log| - 1].GeneratingEmbeddings? || run.log[|run.log| - 1].ConnectingEntities?) &&
      forall i :: |log| <= i < |run.log| ==> run.log[i] != Completed && StepOf(run.log[i]) <= StepOf(run.log[|run.log| - 1])
  }

  /** The messages of one chunk step do not change the shape of an abort
      that happens later. */
  lemma AbortLift(run: RunResult, log: seq<Progress>, mid: seq<Progress>, k: nat)
    requires AbortShape(run, mid, k + 1)
    requires |log| < |mid| < |run.log| && run.log[..|mid|] == mid
    requires forall i :: |log| <= i < |mid| ==> mid[i] != Completed && StepOf(mid[i]) == k + 1
    ensures AbortShape(run, log, k)
  {
    if run.outcome.Fail? {
      forall i | |log| <= i < |mid| ensures run.log[i] == mid[i] {
        assert run.log[i] == run.log[..|mid|][i];
      }
    }
  }

  /** Why and where a run that started at chunk k with store `s` aborted:
      the last message names the chunk j whose write failed. If it was
      save_chunk (the last message announces the embedding step) the error
      carries that write's message and the store is the one left by chunks
      k..j-1; if it was save_graph (the last message announces the entity
      linking) the error carries that transaction's message and the store
      also holds chunk j, whose graph was rolled back. */
  predicate AbortCause(o: IngestOracle, chunks: seq<string>, k: nat, s: StoreState, run: RunResult)
    requires k <= |chunks|
  {
    run.outcome.Fail? ==>
      |run.log| > 0 && k < StepOf(run.log[|run.log| - 1]) <= |chunks| &&
      var last := run.log[|run.log| - 1];
      var j := StepOf(last) - 1;
      var before := StoreThrough(o, chunks, k, j, s);
      o.embed(j).Ok? &&
      (last.GeneratingEmbeddings? ==>
         o.saveChunkFault(j).Some? &&
         run.outcome.error == DatabaseError(o.saveChunkFault(j).value) &&
         run.store == before) &&
      (last.ConnectingEntities? ==>
         o.saveChunkFault(j).None? && o.extract(j).Ok? &&
         SaveGraphFails(o.extract(j).value, o.saveGraphFault(j)) &&
         run.outcome.error == DatabaseError(o.saveGraphFault(j).value.message) &&
         run.store == SaveChunkEffect(before, o.chunkId(j), chunks[j], o.embed(j).value))
  }

  /** A chunk processed without a failing write does not change the cause
      of an abort that happens later. */
  lemma AbortCauseLift(o: IngestOracle, chunks: seq<string>, k: nat, s: StoreState, run: RunResult)
    requires k < |chunks|
    requires AbortCause(o, chunks, k + 1, ChunkEffect(o, chunks, k, s), run)
    ensures AbortCause(o, chunks, k, s, run)
  {
    if run.outcome.Fail? {
      var j := StepOf(run.log[|run.log| - 1]) - 1;
      assert StoreThrough(o, chunks, k, j, s) == StoreThrough(o, chunks, k + 1, j, ChunkEffect(o, chunks, k, s));
    }
  }

  /** Failure policy, abort: the error of an aborted run is the message of
      the write that failed, and the store keeps everything written before
      it (the chunk itself too when save_graph was the failing write). */
  lemma {:induction false} RunAbortCause(o: IngestOracle, chunks: seq<string>, k: nat, s: StoreState, log: seq<Progress>)
    requires k <= |chunks|
    ensures AbortCause(o, chunks, k, s, Run(o, chunks, k, s, log))
    decreases |chunks| - k
  {
    if k < |chunks| {
      var step, total := k + 1, |chunks|;
      var log1 := log + [GeneratingEmbeddings(step, total)];
      var run := Run(o, chunks, k, s, log);
      if o.embed(k).Err? {
        var log' := log1 + [EmbeddingSkipped(step, o.embed(k).error)];
        assert run == Run(o, chunks, k + 1, s, log');
        RunAbortCause(o, chunks, k + 1, s, log');
        AbortCauseLift(o, chunks, k, s, run);
      } else if o.saveChunkFault(k).None? {
        var s1 := SaveChunkEffect(s, o.chunkId(k), chunks[k], o.embed(k).value);
        var log2 := log1 + [ExtractingKnowledge(step, total)];
        if o.extract(k).Err? {
          var log' := log2 + [ExtractionWarning(step, o.extract(k).error)];
          assert run == Run(o, chunks, k + 1, s1, log');
          RunAbortCause(o, chunks, k + 1, s1, log');
          AbortCauseLift(o, chunks, k, s, run);
        } else {
          var x := o.extract(k).value;
          var log3 := log2 + [ConnectingEntities(step, total, |x.entities|)];
          if !SaveGraphFails(x, o.saveGraphFault(k)) {
            var s2 := SaveGraphEffect(s1, o.chunkId(k), x);
            assert run == Run(o, chunks, k + 1, s2, log3);
            RunAbortCause(o, chunks, k + 1, s2, log3);
            AbortCauseLift(o, chunks, k, s, run);
          } else {
            assert run == RunResult(Fail(DatabaseError(o.saveGraphFault(k).value.message)), s1, log3);
          }
        }
      } else {
        assert run == RunResult(Fail(DatabaseError(o.saveChunkFault(k).value)), s, log1);
      }
    }
  }

  /** An abort after a chunk whose embedding failed has the shape of one
      from that chunk on. */
  lemma AbortAfterSkip(o: IngestOracle, chunks: seq<string>, k: nat, s: StoreState, log: seq<Progress>)
    requires k < |chunks| && o.embed(k).Err?
    requires var log' := log + [GeneratingEmbeddings(k + 1, |chunks|), EmbeddingSkipped(k + 1, o.embed(k).error)];
             AbortShape(Run(o, chunks, k + 1, s, log'), log', k + 1)
    ensures AbortShape(Run(o, chunks, k, s, log), log, k)
  {
    var log' := log + [GeneratingEmbeddings(k + 1, |chunks|), EmbeddingSkipped(k + 1, o.embed(k).error)];
    EmbeddingFailureSkips(o, chunks, k, s, log);
    RunKeepsLog(o, chunks, k + 1, s, log');
    AbortLift(Run(o, chunks, k, s, log), log, log', k);
  }

  /** An abort after a chunk whose extraction failed has the shape of one
      from that chunk on. */
  lemma AbortAfterWarning(o: IngestOracle, chunks: seq<string>, k: nat, s: StoreState, log: seq<Progress>)
    requires k < |chunks| && o.embed(k).Ok? && o.saveChunkFault(k).None? && o.extract(k).Err?
    requires var s1 := SaveChunkEffect(s, o.chunkId(k), chunks[k], o.embed(k).value);
             var log' := log + [GeneratingEmbeddings(k + 1, |chunks|), ExtractingKnowledge(k + 1, |chunks|),
                                ExtractionWarning(k + 1, o.extract(k).error)];
             AbortShape(Run(o, chunks, k + 1, s1, log'), log', k + 1)
    ensures AbortShape(Run(o, chunks, k, s, log), log, k)
  {
    var s1 := SaveChunkEffect(s, o.chunkId(k), chunks[k], o.embed(k).value);
    var log' := log + [GeneratingEmbeddings(k + 1, |chunks|), ExtractingKnowledge(k + 1, |chunks|),
                       ExtractionWarning(k + 1, o.extract(k).error)];
    ExtractionFailureContinues(o, chunks, k, s, log);
    RunKeepsLog(o, chunks, k + 1, s1, log');
    AbortLift(Run(o, chunks, k, s, log), log, log', k);
  }

  /** An abort after a chunk whose graph was saved has the shape of one
      from that chunk on. */
  lemma AbortAfterLinked(o: IngestOracle, chunks: seq<string>, k: nat, s: StoreState, log: seq<Progress>)
    requires k < |chunks| && o.embed(k).Ok? && o.saveChunkFault(k).None? && o.extract(k).Ok?
    requires !SaveGraphFails(o.extract(k).value, o.saveGraphFault(k))
    requires var s2 := SaveGraphEffect(SaveChunkEffect(s, o.chunkId(k), chunks[k], o.embed(k).value), o.chunkId(k), o.extract(k).value);
             var log3 := log + [GeneratingEmbeddings(k + 1, |chunks|), ExtractingKnowledge(k + 1, |chunks|),
                                ConnectingEntities(k + 1, |chunks|, |o.extract(k).value.entities|)];
             AbortShape(Run(o, chunks, k + 1, s2, log3), log3, k + 1)
    ensures AbortShape(Run(o, chunks, k, s, log), log, k)
  {
    var x := o.extract(k).value;
    var s2 := SaveGraphEffect(SaveChunkEffect(s, o.chunkId(k), chunks[k], o.embed(k).value), o.chunkId(k), x);
    var log3 := log + [GeneratingEmbeddings(k + 1, |chunks|), ExtractingKnowledge(k + 1, |chunks|),
                       ConnectingEntities(k + 1, |chunks|, |x.entities|)];
    assert log + [GeneratingEmbeddings(k + 1, |chunks|)] + [ExtractingKnowledge(k + 1, |chunks|)]
               + [ConnectingEntities(k + 1, |chunks|, |x.entities|)] == log3;
    assert Run(o, chunks, k, s, log) == Run(o, chunks, k + 1, s2, log3);
    RunKeepsLog(o, chunks, k + 1, s2, log3);
    AbortLift(Run(o, chunks, k, s, log), log, log3, k);
  }

  /** Failure policy, abort: a failing save_chunk or save_graph ends the run
      with that DatabaseError. The last message sent is the one announcing
      the failing write, the completion message is not sent, and no message
      is about a later chunk. */
  lemma {:induction false} RunAbort(o: IngestOracle, chunks: seq<string>, k: nat, s: StoreState, log: seq<Progress>)
    requires k <= |chunks|
    ensures AbortShape(Run(o, chunks, k, s, log), log, k)
    decreases |chunks| - k
  {
    if k < |chunks| {
      var step, total := k + 1, |chunks|;
      if o.embed(k).Err? {
        RunAbort(o, chunks, k + 1, s, log + [GeneratingEmbeddings(step, total), EmbeddingSkipped(step, o.embed(k).error)]);
        AbortAfterSkip(o, chunks, k, s, log);
      } else if o.saveChunkFault(k).None? {
        var s1 := SaveChunkEffect(s, o.chunkId(k), chunks[k], o.embed(k).value);
        if o.extract(k).Err? {
          RunAbort(o, chunks, k + 1, s1, log + [GeneratingEmbeddings(step, total), ExtractingKnowledge(step, total),
                                                 ExtractionWarning(step, o.extract(k).error)]);
          AbortAfterWarning(o, chunks, k, s, log);
        } else {
          var x := o.extract(k).value;
          var log3 := log + [GeneratingEmbeddings(step, total), ExtractingKnowledge(step, total),
                             ConnectingEntities(step, total, |x.entities|)];
          if !SaveGraphFails(x, o.saveGraphFault(k)) {
            RunAbort(o, chunks, k + 1, SaveGraphEffect(s1, o.chunkId(k), x), log3);
            AbortAfterLinked(o, chunks, k, s, log);
          } else {
            assert Run(o, chunks, k, s, log).log == log + [GeneratingEmbeddings(step, total)]
                   + [ExtractingKnowledge(step, total)] + [ConnectingEntities(step, total, |x.entities|)];
          }
        }
      } else {
        assert Run(o, chunks, k, s, log).log == log + [GeneratingEmbeddings(step, total)];
      }
    }
  }

  /** A run that is not aborted sends the completion message last; an
      aborted one never sends it. */
  lemma {:induction false} RunCompletes(o: IngestOracle, chunks: seq<string>, k: nat, s: StoreState, log: seq<Progress>)
    requires k <= |chunks| && Completed !in log
    ensures var run := Run(o, chunks, k, s, log);
            (Completed in run.log <==> run.outcome.Pass?) &&
            (run.outcome.Pass? ==> run.log[|run.log| - 1] == Completed)
    decreases |chunks| - k
  {
    RunAbort(o, chunks, k, s, log);
    RunKeepsLog(o, chunks, k, s, log);
    var run := Run(o, chunks, k, s, log);
    if k < |chunks| {
      var step, total := k + 1, |chunks|;
      var log1 := log + [GeneratingEmbeddings(step, total)];
      if o.embed(k).Err? {
        RunCompletes(o, chunks, k + 1, s, log1 + [EmbeddingSkipped(step, o.embed(k).error)]);
      } else if o.saveChunkFault(k).None? {
        var s1 := SaveChunkEffect(s, o.chunkId(k), chunks[k], o.embed(k).value);
        var log2 := log1 + [ExtractingKnowledge(step, total)];
        if o.extract(k).Err? {
          RunCompletes(o, chunks, k + 1, s1, log2 + [ExtractionWarning(step, o.extract(k).error)]);
        } else {
          var x := o.extract(k).value;
          var log3 := log2 + [ConnectingEntities(step, total, |x.entities|)];
          if !SaveGraphFails(x, o.saveGraphFault(k)) {
            RunCompletes(o, chunks, k + 1, SaveGraphEffect(s1, o.chunkId(k), x), log3);
          }
        }
      }
      if run.outcome.Fail? {
        assert Completed !in run.log by {
          forall i | 0 <= i < |run.log| ensures run.log[i] != Completed {
            if i < |log| { assert run.log[i] == run.log[..|log|][i]; }
          }
        }
      }
    }
  }

  /** Chunk policy, embedding failure: the chunk is skipped with a warning
      naming it, nothing is stored for it and the run moves on. */
  lemma EmbeddingFailureSkips(o: IngestOracle, chunks: seq<string>, k: nat, s: StoreState, log: seq<Progress>)
    requires k < |chunks| && o.embed(k).Err?
    ensures ChunkEffect(o, chunks, k, s) == s
    ensures Run(o, chunks, k, s, log)
            == Run(o, chunks, k + 1, s, log + [GeneratingEmbeddings(k + 1, |chunks|), EmbeddingSkipped(k + 1, o.embed(k).error)])
  {
    assert log + [GeneratingEmbeddings(k + 1, |chunks|)] + [EmbeddingSkipped(k + 1, o.embed(k).error)]
        == log + [GeneratingEmbeddings(k + 1, |chunks|), EmbeddingSkipped(k + 1, o.embed(k).error)];
  }

  /** Chunk policy, extraction failure: the chunk stays stored, save_graph is
      not called for it (no entity, edge or mention is added), a warning is
      sent and the run moves on. */
  lemma ExtractionFailureContinues(o: IngestOracle, chunks: seq<string>, k: nat, s: StoreState, log: seq<Progress>)
    requires k < |chunks| && o.embed(k).Ok? && o.saveChunkFault(k).None? && o.extract(k).Err?
    ensures ChunkEffect(o, chunks, k, s).chunks == s.chunks + [StoredChunk(o.chunkId(k), chunks[k], o.embed(k).value)]
    ensures ChunkEffect(o, chunks, k, s).entities == s.entities
    ensures ChunkEffect(o, chunks, k, s).edges == s.edges
    ensures ChunkEffect(o, chunks, k, s).mentions == s.mentions
    ensures Run(o, chunks, k, s, log)
            == Run(o, chunks, k + 1, SaveChunkEffect(s, o.chunkId(k), chunks[k], o.embed(k).value),
                   log + [GeneratingEmbeddings(k + 1, |chunks|), ExtractingKnowledge(k + 1, |chunks|),
                          ExtractionWarning(k + 1, o.extract(k).error)])
  {
    assert log + [GeneratingEmbeddings(k + 1, |chunks|)] + [ExtractingKnowledge(k + 1, |chunks|)]
               + [ExtractionWarning(k + 1, o.extract(k).error)]
        == log + [GeneratingEmbeddings(k + 1, |chunks|), ExtractingKnowledge(k + 1, |chunks|),
                  ExtractionWarning(k + 1, o.extract(k).error)];
  }

  /** The upload handler's gate (src/interface/handlers/ingest.rs): content
      whose trimmed UTF-8 length is below 5 bytes is refused. */
  predicate Accepted(content: string) {
    Utf8Len(Trim(content)) >= 5
  }

  /** Accepted content yields at least one chunk, so the first chunk is
      always attempted. */
  lemma AcceptedContentIsProcessed(o: IngestOracle, content: string, s: StoreState)
    requires Accepted(content)
    ensures Chunks(content) != []
    ensures |Ingest(o, content, s).log| >= 2
    ensures Ingest(o, content, s).log[..2] == [DocumentSplit(|Chunks(content)|), GeneratingEmbeddings(1, |Chunks(content)|)]
  {
    assert Trim(content) != [];
    ChunksNonEmpty(content);
    RunStartsLog(o, Chunks(content), s);
  }

  /** A run over at least one chunk sends the split message and then
      announces the embedding of the first chunk. */
  lemma RunStartsLog(o: IngestOracle, chunks: seq<string>, s: StoreState)
    requires chunks != []
    ensures |Run(o, chunks, 0, s, [DocumentSplit(|chunks|)]).log| >= 2
    ensures Run(o, chunks, 0, s, [DocumentSplit(|chunks|)]).log[..2] == [DocumentSplit(|chunks|), GeneratingEmbeddings(1, |chunks|)]
  {
    var log := [DocumentSplit(|chunks|)];
    var run := Run(o, chunks, 0, s, log);
    RunKeepsLog(o, chunks, 0, s, log);
    assert run.log[..2] == [run.log[..1][0], run.log[1]];
  }

  /** `ingest_with_progress`, against the repository: its result, the final
      store and the messages sent are those of `Ingest`. */
  method IngestWithProgress(repo: Neo4jRepo, content: string, o: IngestOracle) returns (r: Result<string, AppError>, log: seq<Progress>)
    modifies repo
    ensures repo.State() == Ingest(o, content, old(repo.State())).store
    ensures log == Ingest(o, content, old(repo.State())).log
    ensures r == (if Ingest(o, content, old(repo.State())).outcome.Pass? then Ok(o.groupId)
                  else Err(Ingest(o, content, old(repo.State())).outcome.error))
  {
    var chunks := SplitTextIntoChunks(content);
    var total := |chunks|;
    var groupId := o.groupId;
    log := [DocumentSplit(total)];
    ghost var goal := Run(o, chunks, 0, repo.State(), log);
    for k := 0 to |chunks|
      invariant Run(o, chunks, k, repo.State(), log) == goal
    {
      var step := k + 1;
      var chunkId := o.chunkId(k);
      log := log + [GeneratingEmbeddings(step, total)];
      var embedded := o.embed(k);
      if embedded.Err? {
        log := log + [EmbeddingSkipped(step, embedded.error)];
        continue;
      }
      var saved := repo.SaveChunk(chunkId, chunks[k], embedded.value, o.saveChunkFault(k));
      if saved.Fail? {
        r := Err(saved.error);
        return;
      }
      log := log + [ExtractingKnowledge(step, total)];
      var extracted := o.extract(k);
      if extracted.Ok? {
        log := log + [ConnectingEntities(step, total, |extracted.value.entities|)];
        var graphSaved := repo.SaveGraph(chunkId, extracted.value, o.saveGraphFault(k));
        if graphSaved.Fail? {
          r := Err(graphSaved.error);
          return;
        }
      } else {
        log := log + [ExtractionWarning(step, extracted.error)];
      }
    }
    log := log + [Completed];
    r := Ok(groupId);
  }
}
