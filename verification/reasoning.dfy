/** The reasoning pass (`ReasoningService::infer_new_knowledge`,
    src/application/reasoning.rs): read the densest part of the graph as
    text, ask the AI for implicit relations, store them as inferred edges and
    return them.

    The pass is a straight line of calls, so it is a function. What the
    database and the AI answer is read from a `ReasoningOracle`; the result
    records the calls made, in order, and the store afterwards. */
module Reasoning {
  import opened Domain
  import opened GraphStore
  import opened GraphQueries

  /** The number of relations the context query asks for. */
  const ContextLimit: nat := 300

  /** The text of the prompt before and after the graph context. */
  const PromptHead: string := "Analiza las siguientes relaciones existentes en un Grafo de Conocimiento:\n            \n            "
  const PromptTail: string :=
    "\n            \n            TU TAREA:\n"
    + "            1. Identifica relaciones IMPLÍCITAS lógicas que falten. (Ej: Si A->B y B->C, ¿A->C?)\n"
    + "            2. Identifica entidades que sean SINÓNIMAS y deban unirse (Relación: SAME_AS).\n"
    + "            3. Genera nuevas conexiones conceptuales basadas en tu conocimiento del mundo real.\n"
    + "            \n            Responde ESTRICTAMENTE en JSON con este formato:\n"
    + "            {\n                \"new_relations\": [\n"
    + "                    { \"source\": \"NombreExactoOrigen\", \"target\": \"NombreExactoDestino\", \"relation\": \"TIPO_RELACION\", \"reasoning\": \"Breve explicacion\" }\n"
    + "                ]\n            }\n"
    + "            No inventes entidades nuevas, usa solo las existentes en el texto provisto. Si no hay nada obvio, devuelve array vacío.\n            "

  function Prompt(context: string): string {
    PromptHead + context + PromptTail
  }

  /** The prompt carries the context verbatim, right after the fixed head. */
  lemma PromptContainsContext(context: string)
    ensures |Prompt(context)| == |PromptHead| + |context| + |PromptTail|
    ensures Prompt(context)[|PromptHead|..|PromptHead| + |context|] == context
  {
  }

  /** The outside calls of the pass, in the order they are made. */
  datatype ReasoningCall =
    | FetchContext(limit: nat)
    | Infer(prompt: string)
    | SaveInferred(batch: seq<InferredRelation>)

  /** What the database answers to the context query (its rows, or an
      execution error), what the AI answers to a prompt, and the fault, if
      any, of the save transaction. */
  datatype ReasoningOracle = ReasoningOracle(
    contextRows: Result<seq<ContextRow>, string>,
    infer: string -> Result<seq<InferredRelation>, AppError>,
    saveFault: Option<DbFault>)

  datatype ReasoningRun = ReasoningRun(
    result: Result<seq<InferredRelation>, AppError>,
    calls: seq<ReasoningCall>,
    store: StoreState)

  /** `infer_new_knowledge` against store `s`. The context comes from
      get_graph_context_for_reasoning, the save is save_inferred_relations,
      and each `?` returns the error at once. */
  function InferNewKnowledge(o: ReasoningOracle, s: StoreState): ReasoningRun {
    var fetch := FetchContext(ContextLimit);
    if o.contextRows.Err? then ReasoningRun(Err(DatabaseError(o.contextRows.error)), [fetch], s)
    else
      var prompt := Prompt(ContextText(o.contextRows.value));
      match o.infer(prompt)
      case Err(e) => ReasoningRun(Err(e), [fetch, Infer(prompt)], s)
      case Ok(batch) =>
        if batch == [] then ReasoningRun(Ok(batch), [fetch, Infer(prompt)], s)
        else if SaveInferredFails(batch, o.saveFault) then
          ReasoningRun(Err(DatabaseError(o.saveFault.value.message)), [fetch, Infer(prompt), SaveInferred(batch)], s)
        else ReasoningRun(Ok(batch), [fetch, Infer(prompt), SaveInferred(batch)], SaveInferredEffect(s, batch))
  }

  /** The context is fetched first, once, with limit 300; when it is
      available the AI is asked next, with a prompt carrying it verbatim. */
  lemma ContextFirst(o: ReasoningOracle, s: StoreState)
    ensures InferNewKnowledge(o, s).calls[0] == FetchContext(300)
    ensures forall i :: 1 <= i < |InferNewKnowledge(o, s).calls| ==> !InferNewKnowledge(o, s).calls[i].FetchContext?
    ensures o.contextRows.Ok? ==>
              |InferNewKnowledge(o, s).calls| >= 2 &&
              InferNewKnowledge(o, s).calls[1] == Infer(Prompt(ContextText(o.contextRows.value)))
  {
  }

  /** Every error propagates and leaves the store as it was: a context
      failure before the AI is called, an inference failure before anything
      is saved, a save failure instead of a partial result. */
  lemma ErrorsPropagate(o: ReasoningOracle, s: StoreState)
    ensures InferNewKnowledge(o, s).result.Err? ==> InferNewKnowledge(o, s).store == s
    ensures o.contextRows.Err? ==>
              InferNewKnowledge(o, s) == ReasoningRun(Err(DatabaseError(o.contextRows.error)), [FetchContext(300)], s)
    ensures o.contextRows.Ok? && o.infer(Prompt(ContextText(o.contextRows.value))).Err? ==>
              InferNewKnowledge(o, s).result == Err(o.infer(Prompt(ContextText(o.contextRows.value))).error) &&
              forall c :: c in InferNewKnowledge(o, s).calls ==> !c.SaveInferred?
    ensures o.contextRows.Ok? && o.infer(Prompt(ContextText(o.contextRows.value))).Ok? &&
            o.infer(Prompt(ContextText(o.contextRows.value))).value != [] &&
            SaveInferredFails(o.infer(Prompt(ContextText(o.contextRows.value))).value, o.saveFault) ==>
              InferNewKnowledge(o, s).result == Err(DatabaseError(o.saveFault.value.message))
  {
  }

  /** save_inferred_relations is called exactly once, with the whole batch,
      if and only if the AI proposed at least one relation; on success the
      result is the batch itself, in order. */
  lemma SaveIffNonEmpty(o: ReasoningOracle, s: StoreState)
    requires o.contextRows.Ok? && o.infer(Prompt(ContextText(o.contextRows.value))).Ok?
    ensures var batch := o.infer(Prompt(ContextText(o.contextRows.value))).value;
            var run := InferNewKnowledge(o, s);
            (batch != [] <==> SaveInferred(batch) in run.calls) &&
            (batch == [] ==> forall c :: c in run.calls ==> !c.SaveInferred?) &&
            (forall i, j :: 0 <= i < j < |run.calls| ==> !(run.calls[i].SaveInferred? && run.calls[j].SaveInferred?)) &&
            (run.result.Ok? ==> run.result.value == batch && run.store == SaveInferredEffect(s, batch))
  {
    var batch := o.infer(Prompt(ContextText(o.contextRows.value))).value;
    if batch == [] {
      assert SaveInferredEffect(s, batch) == s;
    }
  }
}
