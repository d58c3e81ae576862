/**
 * The external collaborators of the query path, reduced to the values the
 * pipeline sees: a row of the similarity-search service, the outcome of one
 * embed-and-search round trip, a generation request, and the client handles
 * that are either initialised or missing.
 */
module Services {

  datatype Option<T> = None | Some(value: T)

  /** Which module-level clients were initialised at start-up. */
  datatype Clients = Clients(store: bool, llm: bool, embedder: bool)
  {
    predicate AllReady() { store && llm && embedder }
  }

  /** One row of the `match_documents` similarity-search answer. */
  datatype Match = Match(source: string, content: string, similarity: real)

  /**
   * One query's trip through the embedding model and the `match_documents`
   * service: encoding the query raised, the remote call raised, or the
   * service answered with rows in its own order.
   */
  datatype Lookup = EncodeFailed | RpcFailed | Rows(rows: seq<Match>)

  /** The `match_count` of the `match_documents` call. */
  const MatchCount: nat := 5

  /** One `generate_content` call: model name, prompt, system instruction, temperature. */
  datatype Request = Request(model: string, userPrompt: string, systemInstruction: string, temperature: real)

  const LlmModel := "gemini-2.5-flash"

  /** Separator between context entries in a prompt. */
  const ContextSeparator := "\n---\n"

  const GenerationFailedMessage := "Erro ao gerar resposta com o LLM."

  /**
   * A context entry: the row's provenance and score in brackets, then its
   * text. `fmt` renders the score with three decimals, left uninterpreted.
   */
  function FormatMatch(m: Match, fmt: real -> string): (entry: string)
    ensures var head := "[Fonte: " + m.source + ", Score: " + fmt(m.similarity) + "] ";
      && |entry| == |head| + |m.content|
      && entry[..|head|] == head
      && entry[|head|..] == m.content
  {
    "[Fonte: " + m.source + ", Score: " + fmt(m.similarity) + "] " + m.content
  }

  /** One formatted entry per row, in the rows' order. */
  function FormatAll(rows: seq<Match>, fmt: real -> string): (entries: seq<string>)
  {
    seq(|rows|, i requires 0 <= i < |rows| => FormatMatch(rows[i], fmt))
  }
}
