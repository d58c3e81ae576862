/**
 * The web chat's query path: retrieval with the client-side similarity cut,
 * the grounded / fallback / error decision that shapes the generation
 * request, and the label under which the answer is shown.
 *
 * The embedding model and the `match_documents` call are one `Lookup`
 * value; `fmt` renders a score; the generation call is `llm`, which gives
 * the answer text or `None` when the call raises.
 */
module WebApp {
  import opened Text
  import opened Seqs
  import opened Services

  /** Client-side cut: a row is relevant when its similarity is strictly above it. */
  const SimilarityCutoff: real := 0.75

  predicate IsRelevant(m: Match) {
    m.similarity > SimilarityCutoff
  }

  // ---------------------------------------------------------------------
  // Retrieval
  // ---------------------------------------------------------------------

  /** What `get_relevant_chunks` returns. */
  function RelevantChunks(embedderReady: bool, storeReady: bool, lookup: Lookup, fmt: real -> string): (chunks: seq<string>)
  {
    if !embedderReady || !storeReady || !lookup.Rows? then []
    else FormatAll(Filter(lookup.rows, IsRelevant), fmt)
  }

  /**
   * `get_relevant_chunks`: nothing when a client is missing or when encoding
   * or the search raised; otherwise one formatted entry per row above the
   * cut, in the service's order.
   */
  method GetRelevantChunks(embedderReady: bool, storeReady: bool, lookup: Lookup, fmt: real -> string)
    returns (relevantChunks: seq<string>)
    ensures !embedderReady || !storeReady || !lookup.Rows? ==> relevantChunks == []
    ensures lookup.Rows? ==> |relevantChunks| <= |lookup.rows|
    ensures relevantChunks == RelevantChunks(embedderReady, storeReady, lookup, fmt)
  {
    if !embedderReady || !storeReady {
      return [];
    }
    match lookup
    case EncodeFailed =>
      return [];
    case RpcFailed =>
      return [];
    case Rows(rows) =>
      relevantChunks := [];
      for i := 0 to |rows|
        invariant relevantChunks == FormatAll(Filter(rows[..i], IsRelevant), fmt)
      {
        var m := rows[i];
        assert rows[..i + 1][..i] == rows[..i];
        if m.similarity > 0.75 {
          relevantChunks := relevantChunks + [FormatMatch(m, fmt)];
        }
      }
      assert rows[..|rows|] == rows;
      FilterBounds(rows, IsRelevant);
  }

  /**
   * With both clients up and rows returned, the entries are exactly the
   * rows above the cut, formatted, in the service's order: they come from
   * strictly increasing positions, and a position is used exactly when its
   * row's similarity exceeds 0.75.
   */
  lemma RelevantChunksExact(rows: seq<Match>, fmt: real -> string)
    ensures var chunks, idx := RelevantChunks(true, true, Rows(rows), fmt), KeptIndices(rows, IsRelevant);
      && |chunks| == |idx|
      && (forall k :: 0 <= k < |idx| ==> idx[k] < |rows| && chunks[k] == FormatMatch(rows[idx[k]], fmt))
      && (forall j, k :: 0 <= j < k < |idx| ==> idx[j] < idx[k])
      && (forall i :: 0 <= i < |rows| ==> (rows[i].similarity > 0.75 <==> i in idx))
  {
    var idx := KeptIndices(rows, IsRelevant);
    assert forall i :: 0 <= i < |rows| ==> (IsRelevant(rows[i]) <==> rows[i].similarity > 0.75);
  }

  /**
   * Every row kept scores above the cut, and when the service answers in
   * descending order of similarity the kept rows stay in that order.
   */
  lemma KeptRowsOrdered(rows: seq<Match>)
    ensures forall k :: 0 <= k < |Filter(rows, IsRelevant)| ==> Filter(rows, IsRelevant)[k].similarity > 0.75
    ensures (forall i, j :: 0 <= i < j < |rows| ==> rows[i].similarity >= rows[j].similarity) ==>
      forall i, j :: 0 <= i < j < |Filter(rows, IsRelevant)| ==>
        Filter(rows, IsRelevant)[i].similarity >= Filter(rows, IsRelevant)[j].similarity
  {
    FilterBounds(rows, IsRelevant);
    var idx := KeptIndices(rows, IsRelevant);
  }

  /** The cut is strict: a row scored exactly 0.75 is dropped. */
  lemma CutoffIsStrict(m: Match, fmt: real -> string)
    requires m.similarity == 0.75
    ensures RelevantChunks(true, true, Rows([m]), fmt) == []
  {
    assert [m][..0] == [];
    assert !IsRelevant(m);
    assert Filter([m], IsRelevant) == [];
  }

  /** No more entries than rows, hence at most `match_count` when the service honours it. */
  lemma AtMostMatchCount(embedderReady: bool, storeReady: bool, rows: seq<Match>, fmt: real -> string)
    requires |rows| <= MatchCount
    ensures |RelevantChunks(embedderReady, storeReady, Rows(rows), fmt)| <= MatchCount
  {
    FilterBounds(rows, IsRelevant);
  }

  /** Rows scored 0.9, 0.8, 0.76, 0.6, 0.4 leave exactly the first three. */
  lemma FiveRowsThreeKept(a: Match, b: Match, c: Match, d: Match, e: Match, fmt: real -> string)
    requires a.similarity == 0.9 && b.similarity == 0.8 && c.similarity == 0.76
    requires d.similarity == 0.6 && e.similarity == 0.4
    ensures RelevantChunks(true, true, Rows([a, b, c, d, e]), fmt)
      == [FormatMatch(a, fmt), FormatMatch(b, fmt), FormatMatch(c, fmt)]
  {
    var rows := [a, b, c, d, e];
    assert [a][..0] == [];
    assert Filter([a], IsRelevant) == [a];
    assert [a, b][..1] == [a];
    assert Filter([a, b], IsRelevant) == [a, b];
    assert [a, b, c][..2] == [a, b];
    assert Filter([a, b, c], IsRelevant) == [a, b, c];
    assert [a, b, c, d][..3] == [a, b, c];
    assert Filter([a, b, c, d], IsRelevant) == [a, b, c];
    assert rows[..4] == [a, b, c, d];
    assert Filter(rows, IsRelevant) == [a, b, c];
  }

  // ---------------------------------------------------------------------
  // Answer generation
  // ---------------------------------------------------------------------

  datatype Mode = Rag | Fallback | Error

  const ClientMissingMessage := "Erro: Cliente Gemini não inicializado."

  const RagInstruction :=
    "Você é um assistente de Nutrição especializado, chamado DiabetesGPT. "
    + "Responda APENAS com base nos documentos de contexto fornecidos. "
    + "Se o contexto não for suficiente, diga: 'Desculpe, não encontrei informações específicas nos documentos de diabetes fornecidos.' "
    + "Inclua referências à fonte original no final da frase relevante."

  const FallbackInstruction :=
    "Você é um assistente de Nutrição e saúde. A busca RAG falhou. Responda à pergunta "
    + "diretamente com seu conhecimento geral de forma informativa e profissional."

  /** The request `generate_rag_answer` sends: grounded when there are chunks, general otherwise. */
  function AnswerRequest(query: string, relevantChunks: seq<string>): (req: Request)
    ensures req.model == LlmModel
    ensures relevantChunks != [] ==> req.systemInstruction == RagInstruction && req.temperature == 0.2
    ensures relevantChunks == [] ==> req.systemInstruction == FallbackInstruction && req.temperature == 0.4
  {
    var source := if relevantChunks != [] then Rag else Fallback;
    var instruction := if relevantChunks != [] then RagInstruction else FallbackInstruction;
    var context := if relevantChunks != [] then Join(ContextSeparator, relevantChunks) else "N/A";
    var userPrompt := "Pergunta do Usuário: " + query + "\n\nContexto (se RAG): " + context;
    Request(LlmModel, userPrompt, instruction, if source == Fallback then 0.4 else 0.2)
  }

  /**
   * The prompt opens with the question; its context is the separator-joined
   * entries in order in grounded mode and the literal "N/A" in fallback mode,
   * so it carries the question and every retrieved entry verbatim.
   */
  lemma PromptCarriesContext(query: string, relevantChunks: seq<string>)
    ensures Contains(AnswerRequest(query, relevantChunks).userPrompt, query)
    ensures forall k :: 0 <= k < |relevantChunks| ==>
      Contains(AnswerRequest(query, relevantChunks).userPrompt, relevantChunks[k])
    ensures relevantChunks == [] ==> EndsWith(AnswerRequest(query, relevantChunks).userPrompt, "N/A")
    ensures var prompt := AnswerRequest(query, relevantChunks).userPrompt;
      var head := "Pergunta do Usuário: " + query + "\n\nContexto (se RAG): ";
      && |head| <= |prompt| && prompt[..|head|] == head
      && prompt[|head|..] == (if relevantChunks != [] then Join(ContextSeparator, relevantChunks) else "N/A")
  {
    var prompt := AnswerRequest(query, relevantChunks).userPrompt;
    var context := if relevantChunks != [] then Join(ContextSeparator, relevantChunks) else "N/A";
    var head := "Pergunta do Usuário: ";
    var tail := "\n\nContexto (se RAG): " + context;
    assert prompt == head + query + tail;
    ContainsMiddle(head, query, tail);
    if relevantChunks != [] {
      var front := head + query + "\n\nContexto (se RAG): ";
      assert prompt == front + context + "";
      ContainsMiddle(front, context, "");
      JoinContainsParts(ContextSeparator, relevantChunks);
      forall k | 0 <= k < |relevantChunks| ensures Contains(prompt, relevantChunks[k]) {
        ContainsTransitive(prompt, context, relevantChunks[k]);
      }
    }
  }

  /**
   * `generate_rag_answer`: ERROR with a fixed message when the client is
   * missing or the call raises; otherwise the model's text, in RAG mode
   * exactly when there were chunks and in FALLBACK mode exactly when there
   * were none.
   */
  function GenerateAnswer(llmReady: bool, query: string, relevantChunks: seq<string>, llm: Request -> Option<string>)
    : (r: (string, Mode))
    ensures r.1 == Error <==> !llmReady || llm(AnswerRequest(query, relevantChunks)).None?
    ensures r.1 == Rag <==> llmReady && relevantChunks != [] && llm(AnswerRequest(query, relevantChunks)).Some?
    ensures r.1 == Fallback <==> llmReady && relevantChunks == [] && llm(AnswerRequest(query, relevantChunks)).Some?
    ensures !llmReady ==> r.0 == ClientMissingMessage
    ensures llmReady && llm(AnswerRequest(query, relevantChunks)).None? ==> r.0 == GenerationFailedMessage
    ensures r.1 != Error ==> r.0 == llm(AnswerRequest(query, relevantChunks)).value
  {
    if !llmReady then (ClientMissingMessage, Error)
    else
      var source := if relevantChunks != [] then Rag else Fallback;
      match llm(AnswerRequest(query, relevantChunks))
      case Some(text) => (text, source)
      case None => (GenerationFailedMessage, Error)
  }

  // ---------------------------------------------------------------------
  // Display
  // ---------------------------------------------------------------------

  const RagIcon := "📚"
  const FallbackIcon := "💡"
  const RagLabel := "RAG (Documentos)"
  const FallbackLabel := "FALLBACK (Conhecimento Geral)"

  /** Icon and label of an answer: the documents badge for RAG, the general-knowledge badge for anything else. */
  function SourceLabel(source: Mode): (r: (string, string))
    ensures r == (RagIcon, RagLabel) <==> source == Rag
    ensures r == (FallbackIcon, FallbackLabel) <==> source != Rag
  {
    var icon := if source == Rag then RagIcon else FallbackIcon;
    var caption := if source == Rag then RagLabel else FallbackLabel;
    (icon, caption)
  }

  /** An ERROR answer is shown under the same badge as a FALLBACK answer. */
  lemma ErrorShownAsFallback()
    ensures SourceLabel(Error) == SourceLabel(Fallback)
  {
  }

  datatype Turn = Turn(answer: string, source: Mode, icon: string, caption: string, content: string)

  /**
   * One chat turn: retrieve, generate, and compose the assistant message
   * with its badge. The page stops before any turn unless all three clients
   * are up.
   */
  function ChatTurn(clients: Clients, prompt: string, lookup: Lookup, fmt: real -> string, llm: Request -> Option<string>)
    : (turn: Option<Turn>)
    ensures turn.None? <==> !clients.AllReady()
    ensures turn.Some? ==>
      var req := AnswerRequest(prompt, RelevantChunks(true, true, lookup, fmt));
      var badge := "**Fonte da Resposta: " + turn.value.icon + " " + turn.value.caption + "**\n\n";
      && (turn.value.source == Error <==> llm(req).None?)
      && (turn.value.source == Rag <==> llm(req).Some? && RelevantChunks(true, true, lookup, fmt) != [])
      && (turn.value.source != Error ==> turn.value.answer == llm(req).value)
      && (turn.value.source == Error ==> turn.value.answer == GenerationFailedMessage)
      && (turn.value.source == Rag ==> turn.value.icon == RagIcon && turn.value.caption == RagLabel)
      && (turn.value.source != Rag ==> turn.value.icon == FallbackIcon && turn.value.caption == FallbackLabel)
      && turn.value.content == badge + turn.value.answer
  {
    if !clients.AllReady() then None
    else
      var chunks := RelevantChunks(clients.embedder, clients.store, lookup, fmt);
      var answer := GenerateAnswer(clients.llm, prompt, chunks, llm);
      var badge := SourceLabel(answer.1);
      Some(Turn(answer.0, answer.1, badge.0, badge.1,
        "**Fonte da Resposta: " + badge.0 + " " + badge.1 + "**\n\n" + answer.0))
  }

  /**
   * A turn is shown as grounded in the documents exactly when the search
   * returned a row scored above 0.75 and generation succeeded.
   */
  lemma GroundedBadgeIff(clients: Clients, prompt: string, lookup: Lookup, fmt: real -> string, llm: Request -> Option<string>)
    requires clients.AllReady()
    ensures var chunks := RelevantChunks(true, true, lookup, fmt);
      ChatTurn(clients, prompt, lookup, fmt, llm).value.caption == RagLabel
      <==> && lookup.Rows?
           && (exists i :: 0 <= i < |lookup.rows| && lookup.rows[i].similarity > 0.75)
           && llm(AnswerRequest(prompt, chunks)).Some?
  {
    if lookup.Rows? {
      var rows := lookup.rows;
      FilterEmptyIff(rows, IsRelevant);
      assert (exists i :: 0 <= i < |rows| && rows[i].similarity > 0.75)
        <==> (exists i :: 0 <= i < |rows| && IsRelevant(rows[i]));
    }
  }
}
