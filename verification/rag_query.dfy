/**
 * The command-line chatbot: retrieval without a client-side cut, a single
 * grounded prompt, and the read-answer loop.
 *
 * Input lines are a finite script; reading past its end is the `EOFError`
 * that `input()` raises. Retrieval for a query is `lookup(query)`, score
 * rendering is `fmt` and the generation call is `llm`, as in the web app.
 */
module RagQuery {
  import opened Text
  import opened Seqs
  import opened Services

  // ---------------------------------------------------------------------
  // Retrieval
  // ---------------------------------------------------------------------

  /**
   * The outcome of `get_relevant_chunks` here: the query is encoded outside
   * the `try`, so an encoding failure propagates to the caller as an
   * exception, while a failing search still yields no chunks.
   */
  datatype Retrieval = Retrieved(chunks: seq<string>) | Raised

  function RetrievedChunks(embedderReady: bool, storeReady: bool, lookup: Lookup, fmt: real -> string): (retrieval: Retrieval)
  {
    if !embedderReady || !storeReady then Retrieved([])
    else match lookup
      case EncodeFailed => Raised
      case RpcFailed => Retrieved([])
      case Rows(rows) => Retrieved(FormatAll(rows, fmt))
  }

  /**
   * `get_relevant_chunks`: no chunks when a client is missing or the search
   * raises, the encoding exception passed on, and otherwise exactly one
   * formatted entry per returned row, in the service's order, with no
   * similarity cut.
   */
  method GetRelevantChunks(embedderReady: bool, storeReady: bool, lookup: Lookup, fmt: real -> string)
    returns (outcome: Retrieval)
    ensures outcome == Raised <==> embedderReady && storeReady && lookup.EncodeFailed?
    ensures !embedderReady || !storeReady || lookup.RpcFailed? ==> outcome == Retrieved([])
    ensures embedderReady && storeReady && lookup.Rows? ==>
      && outcome.Retrieved?
      && |outcome.chunks| == |lookup.rows|
      && forall i :: 0 <= i < |lookup.rows| ==> outcome.chunks[i] == FormatMatch(lookup.rows[i], fmt)
    ensures outcome == RetrievedChunks(embedderReady, storeReady, lookup, fmt)
  {
    if !embedderReady || !storeReady {
      return Retrieved([]);
    }
    if lookup.EncodeFailed? {
      return Raised;
    }
    match lookup
    case RpcFailed =>
      return Retrieved([]);
    case Rows(rows) =>
      var relevantChunks := [];
      for i := 0 to |rows|
        invariant |relevantChunks| == i
        invariant forall k :: 0 <= k < i ==> relevantChunks[k] == FormatMatch(rows[k], fmt)
      {
        relevantChunks := relevantChunks + [FormatMatch(rows[i], fmt)];
      }
      return Retrieved(relevantChunks);
  }

  // ---------------------------------------------------------------------
  // Answer generation
  // ---------------------------------------------------------------------

  const ClientMissingMessage := "Erro: Cliente Gemini não inicializado. Verifique a chave API no .env."

  const Instruction :=
    "Você é um assistente de Nutrição especializado, chamado NutriRAG. "
    + "Sua tarefa é responder a pergunta do usuário APENAS com base nos documentos de contexto fornecidos. "
    + "Se o contexto não contiver informações suficientes para responder à pergunta, você deve dizer: 'Desculpe, não encontrei informações relevantes nos documentos fornecidos.' "
    + "Mantenha a resposta concisa, profissional e inclua referências à fonte original entre colchetes [Fonte: nome_do_arquivo] no final da frase relevante."

  const ContextHeader := "Contexto dos Documentos:\n\n"
  const QuestionHeader := "Pergunta do Usuário: "

  /** The one request the command line sends: always grounded, always at temperature 0.2. */
  function AnswerRequest(query: string, relevantChunks: seq<string>): (req: Request)
    ensures req.model == LlmModel && req.systemInstruction == Instruction && req.temperature == 0.2
  {
    var context := Join(ContextSeparator, relevantChunks);
    var userPrompt := ContextHeader + context + "\n\n" + "---" + QuestionHeader + query;
    Request(LlmModel, userPrompt, Instruction, 0.2)
  }

  /**
   * The prompt is the context header, the separator-joined entries in order,
   * and the question; so it carries every retrieved entry verbatim.
   */
  lemma PromptCarriesContext(query: string, relevantChunks: seq<string>)
    ensures var prompt := AnswerRequest(query, relevantChunks).userPrompt;
      && |ContextHeader| <= |prompt| && prompt[..|ContextHeader|] == ContextHeader
      && EndsWith(prompt, "\n\n---" + QuestionHeader + query)
      && forall k :: 0 <= k < |relevantChunks| ==> Contains(prompt, relevantChunks[k])
    ensures var prompt := AnswerRequest(query, relevantChunks).userPrompt;
      var tail := "\n\n---" + QuestionHeader + query;
      && |ContextHeader| + |tail| <= |prompt|
      && prompt[|ContextHeader|..|prompt| - |tail|] == Join(ContextSeparator, relevantChunks)
  {
    var context := Join(ContextSeparator, relevantChunks);
    var prompt := AnswerRequest(query, relevantChunks).userPrompt;
    var tail := "\n\n---" + QuestionHeader + query;
    assert prompt == ContextHeader + context + tail;
    ContainsMiddle(ContextHeader, context, tail);
    JoinContainsParts(ContextSeparator, relevantChunks);
    forall k | 0 <= k < |relevantChunks| ensures Contains(prompt, relevantChunks[k]) {
      ContainsTransitive(prompt, context, relevantChunks[k]);
    }
  }

  /**
   * `generate_rag_answer`: a fixed message when the client is missing or the
   * call raises, the model's text otherwise.
   */
  function GenerateAnswer(llmReady: bool, query: string, relevantChunks: seq<string>, llm: Request -> Option<string>)
    : (answer: string)
    ensures !llmReady ==> answer == ClientMissingMessage
    ensures llmReady && llm(AnswerRequest(query, relevantChunks)).None? ==> answer == GenerationFailedMessage
    ensures llmReady && llm(AnswerRequest(query, relevantChunks)).Some?
      ==> answer == llm(AnswerRequest(query, relevantChunks)).value
  {
    if !llmReady then ClientMissingMessage
    else match llm(AnswerRequest(query, relevantChunks))
      case Some(text) => text
      case None => GenerationFailedMessage
  }

  // ---------------------------------------------------------------------
  // The read-answer loop
  // ---------------------------------------------------------------------

  const ExitCommands: seq<string> := ["sair", "exit", "quit"]

  /** The stripped input asks to leave, in any letter case. */
  predicate IsExitCommand(userQuery: string) {
    Lower(userQuery) in ExitCommands
  }

  /** What one answered query prints: the apology for an empty search, or the model's answer. */
  datatype Reply = NoContext(query: string) | Answered(query: string, context: seq<string>, answer: string)

  /**
   * How the loop ends: it never starts when a client is missing, leaves on
   * an exit command, or dies on an exception from `input()` at end of input
   * or from encoding a query.
   */
  datatype SessionEnd = NotStarted | Quit | InputClosed | RetrievalRaised

  datatype Session = Session(replies: seq<Reply>, end: SessionEnd)

  function Prepend(replies: seq<Reply>, s: Session): (session: Session) {
    Session(replies + s.replies, s.end)
  }

  /** What one input line does to the loop. */
  datatype LineEffect = Leave | Skip | Crash | Say(reply: Reply)

  /**
   * One pass of the loop body for an input line: leave on an exit command,
   * skip a blank line, die if retrieval raises, apologise when nothing was
   * retrieved, and otherwise answer from the retrieved context.
   */
  function HandleLine(line: string, lookup: string -> Lookup, fmt: real -> string, llm: Request -> Option<string>)
    : (effect: LineEffect)
    ensures effect == Leave <==> IsExitCommand(Strip(line))
    ensures effect == Skip <==> !IsExitCommand(Strip(line)) && Strip(line) == ""
    ensures effect == Crash <==> !IsExitCommand(Strip(line)) && Strip(line) != "" && lookup(Strip(line)).EncodeFailed?
    ensures effect.Say? ==> effect.reply.query == Strip(line)
  {
    var userQuery := Strip(line);
    if IsExitCommand(userQuery) then Leave
    else if userQuery == "" then Skip
    else match RetrievedChunks(true, true, lookup(userQuery), fmt)
      case Raised => Crash
      case Retrieved(chunks) =>
        if chunks == [] then Say(NoContext(userQuery))
        else Say(Answered(userQuery, chunks, GenerateAnswer(true, userQuery, chunks, llm)))
  }

  /** The loop driven by the effects of successive lines. */
  function Run(effects: seq<LineEffect>): (session: Session)
  {
    if effects == [] then Session([], InputClosed)
    else match effects[0]
      case Leave => Session([], Quit)
      case Skip => Run(effects[1..])
      case Crash => Session([], RetrievalRaised)
      case Say(reply) => Prepend([reply], Run(effects[1..]))
  }

  function Effects(lines: seq<string>, lookup: string -> Lookup, fmt: real -> string, llm: Request -> Option<string>)
    : (effects: seq<LineEffect>)
  {
    seq(|lines|, i requires 0 <= i < |lines| => HandleLine(lines[i], lookup, fmt, llm))
  }

  /** The loop over the input lines, with every client up. */
  function Repl(lines: seq<string>, lookup: string -> Lookup, fmt: real -> string, llm: Request -> Option<string>)
    : (session: Session)
  {
    Run(Effects(lines, lookup, fmt, llm))
  }

  function ChatSession(clients: Clients, lines: seq<string>, lookup: string -> Lookup,
                       fmt: real -> string, llm: Request -> Option<string>): (session: Session)
  {
    if !clients.AllReady() then Session([], NotStarted) else Repl(lines, lookup, fmt, llm)
  }

  /**
   * `main`: refuses to start unless every client is up, then reads lines
   * until an exit command, skipping blank ones, and generates an answer
   * only for queries whose retrieval found something.
   */
  method Chat(clients: Clients, lines: seq<string>, lookup: string -> Lookup,
              fmt: real -> string, llm: Request -> Option<string>)
    returns (replies: seq<Reply>, end: SessionEnd)
    ensures Session(replies, end) == ChatSession(clients, lines, lookup, fmt, llm)
  {
    replies := [];
    if !clients.store || !clients.llm || !clients.embedder {
      return [], NotStarted;
    }
    ghost var effects := Effects(lines, lookup, fmt, llm);
    var i := 0;
    while true
      invariant 0 <= i <= |lines|
      invariant Prepend(replies, Run(effects[i..])) == Run(effects)
      decreases |lines| - i
    {
      if i == |lines| {
        return replies, InputClosed;
      }
      RunStep(effects, i);
      ghost var effect := HandleLine(lines[i], lookup, fmt, llm);
      assert effects[i] == effect;
      var userQuery := Strip(lines[i]);
      i := i + 1;
      if Lower(userQuery) in ExitCommands {
        assert effect == Leave;
        return replies, Quit;
      }
      if userQuery == "" {
        assert effect == Skip;
        continue;
      }
      var relevant := GetRelevantChunks(clients.embedder, clients.store, lookup(userQuery), fmt);
      if relevant.Raised? {
        assert effect == Crash;
        return replies, RetrievalRaised;
      }
      if relevant.chunks == [] {
        assert effect == Say(NoContext(userQuery));
        PrependTwice(replies, [NoContext(userQuery)], Run(effects[i..]));
        replies := replies + [NoContext(userQuery)];
        continue;
      }
      var finalAnswer := GenerateAnswer(clients.llm, userQuery, relevant.chunks, llm);
      assert effect == Say(Answered(userQuery, relevant.chunks, finalAnswer));
      PrependTwice(replies, [Answered(userQuery, relevant.chunks, finalAnswer)], Run(effects[i..]));
      replies := replies + [Answered(userQuery, relevant.chunks, finalAnswer)];
    }
  }

  lemma PrependTwice(a: seq<Reply>, b: seq<Reply>, s: Session)
    ensures Prepend(a, Prepend(b, s)) == Prepend(a + b, s)
  {
    assert a + (b + s.replies) == (a + b) + s.replies;
  }

  /** One step of the loop: the run from line `i` is decided by that line's effect and the run after it. */
  lemma RunStep(effects: seq<LineEffect>, i: nat)
    requires i < |effects|
    ensures Run(effects[i..]) == match effects[i]
      case Leave => Session([], Quit)
      case Skip => Run(effects[i + 1..])
      case Crash => Session([], RetrievalRaised)
      case Say(reply) => Prepend([reply], Run(effects[i + 1..]))
  {
    assert effects[i..][0] == effects[i];
    assert effects[i..][1..] == effects[i + 1..];
  }

  /** A blank (all-whitespace) line is skipped: no retrieval, no reply. */
  lemma BlankLineSkipped(line: string, lookup: string -> Lookup, fmt: real -> string, llm: Request -> Option<string>)
    requires AllSpace(line)
    ensures HandleLine(line, lookup, fmt, llm) == Skip
  {
    StripEmptyIff(line);
  }

  /** After a line that leaves, no later line has any effect. */
  lemma {:induction false} LeaveEndsRun(effects: seq<LineEffect>, k: nat)
    requires k < |effects| && effects[k] == Leave
    ensures Run(effects) == Run(effects[..k + 1])
    ensures Run(effects).end != InputClosed
  {
    assert effects[..k + 1][0] == effects[0];
    if k > 0 {
      assert effects[..k + 1][1..] == effects[1..][..k];
      LeaveEndsRun(effects[1..], k - 1);
    }
  }

  /**
   * An exit command ends the session there: nothing typed after it has any
   * effect, and the session does not run into the end of the input.
   */
  lemma ExitEndsSession(lines: seq<string>, k: nat, lookup: string -> Lookup,
                        fmt: real -> string, llm: Request -> Option<string>)
    requires k < |lines| && IsExitCommand(Strip(lines[k]))
    ensures Repl(lines, lookup, fmt, llm) == Repl(lines[..k + 1], lookup, fmt, llm)
    ensures Repl(lines, lookup, fmt, llm).end != InputClosed
  {
    var effects := Effects(lines, lookup, fmt, llm);
    assert effects[k] == Leave;
    assert Effects(lines[..k + 1], lookup, fmt, llm) == effects[..k + 1];
    LeaveEndsRun(effects, k);
  }

  /** The line neither left nor ended the loop: it was skipped or answered. */
  predicate Continues(effect: LineEffect) {
    effect.Skip? || effect.Say?
  }

  /** A run ends by leaving exactly when it meets a line that leaves and every line before it continued. */
  lemma {:induction false} QuitIffLeave(effects: seq<LineEffect>)
    ensures Run(effects).end == Quit <==>
      (exists k :: 0 <= k < |effects| && effects[k] == Leave && forall j :: 0 <= j < k ==> Continues(effects[j]))
  {
    if effects != [] && effects[0] != Leave {
      var rest := effects[1..];
      QuitIffLeave(rest);
      if Run(effects).end == Quit {
        var k :| 0 <= k < |rest| && rest[k] == Leave && forall j :: 0 <= j < k ==> Continues(rest[j]);
        assert effects[k + 1] == Leave;
        forall j | 0 <= j < k + 1 ensures Continues(effects[j]) {
          if j > 0 {
            assert effects[j] == rest[j - 1];
          }
        }
      }
      if k :| 0 <= k < |effects| && effects[k] == Leave && (forall j :: 0 <= j < k ==> Continues(effects[j])) {
        assert k > 0;
        assert rest[k - 1] == Leave;
        forall j | 0 <= j < k - 1 ensures Continues(rest[j]) {
          assert rest[j] == effects[j + 1];
        }
      }
    }
  }

  /**
   * The session ends by quitting exactly when some line, stripped and
   * lower-cased, is an exit command and every line before it was skipped
   * or answered.
   */
  lemma QuitIffExit(lines: seq<string>, lookup: string -> Lookup,
                    fmt: real -> string, llm: Request -> Option<string>)
    ensures Repl(lines, lookup, fmt, llm).end == Quit <==>
      (exists k :: 0 <= k < |lines| && IsExitCommand(Strip(lines[k]))
                   && forall j :: 0 <= j < k ==> Continues(HandleLine(lines[j], lookup, fmt, llm)))
  {
    var effects := Effects(lines, lookup, fmt, llm);
    QuitIffLeave(effects);
    if Run(effects).end == Quit {
      var k :| 0 <= k < |effects| && effects[k] == Leave && forall j :: 0 <= j < k ==> Continues(effects[j]);
      assert effects[k] == HandleLine(lines[k], lookup, fmt, llm);
      assert forall j :: 0 <= j < k ==> Continues(HandleLine(lines[j], lookup, fmt, llm)) by {
        forall j | 0 <= j < k ensures Continues(HandleLine(lines[j], lookup, fmt, llm)) {
          assert effects[j] == HandleLine(lines[j], lookup, fmt, llm);
        }
      }
    }
    if k :| 0 <= k < |lines| && IsExitCommand(Strip(lines[k])) && (forall j :: 0 <= j < k ==> Continues(effects[j])) {
      assert effects[k] == Leave;
    }
  }

  /** The replies of the lines that say something, in order. */
  function Said(effects: seq<LineEffect>): (replies: seq<Reply>)
  {
    if effects == [] then []
    else (if effects[0].Say? then [effects[0].reply] else []) + Said(effects[1..])
  }

  /**
   * A run that reaches the end of its input met no line that leaves or
   * crashes, and its replies are those of the lines that say something, in
   * order.
   */
  lemma {:induction false} RunToEnd(effects: seq<LineEffect>)
    requires Run(effects).end == InputClosed
    ensures forall k :: 0 <= k < |effects| ==> effects[k].Skip? || effects[k].Say?
    ensures Run(effects).replies == Said(effects)
  {
    if effects != [] {
      var rest := effects[1..];
      assert effects[0].Skip? || effects[0].Say?;
      assert Run(effects) == if effects[0].Skip? then Run(rest) else Prepend([effects[0].reply], Run(rest));
      RunToEnd(rest);
      forall k | 0 < k < |effects| ensures effects[k].Skip? || effects[k].Say? {
        assert effects[k] == rest[k - 1];
      }
    }
  }

  /** The queries that are not empty, in order. */
  function NonBlank(queries: seq<string>): (nonBlank: seq<string>)
  {
    if queries == [] then []
    else (if queries[0] != "" then [queries[0]] else []) + NonBlank(queries[1..])
  }

  /** The stripped input lines that are not blank, in order. */
  function Queries(lines: seq<string>): (queries: seq<string>)
  {
    NonBlank(seq(|lines|, i requires 0 <= i < |lines| => Strip(lines[i])))
  }

  function RepliedQueries(replies: seq<Reply>): (replied: seq<string>)
  {
    seq(|replies|, i requires 0 <= i < |replies| => replies[i].query)
  }

  lemma RepliedQueriesAppend(a: seq<Reply>, b: seq<Reply>)
    ensures RepliedQueries(a + b) == RepliedQueries(a) + RepliedQueries(b)
  {
    assert forall i :: 0 <= i < |a + b| ==> RepliedQueries(a + b)[i] == (RepliedQueries(a) + RepliedQueries(b))[i];
  }

  /** A line that neither leaves nor crashes replies exactly when it is not blank, to its stripped text. */
  lemma LineReply(line: string, lookup: string -> Lookup, fmt: real -> string, llm: Request -> Option<string>)
    requires HandleLine(line, lookup, fmt, llm).Skip? || HandleLine(line, lookup, fmt, llm).Say?
    ensures HandleLine(line, lookup, fmt, llm).Say? <==> Strip(line) != ""
    ensures HandleLine(line, lookup, fmt, llm).Say? ==> HandleLine(line, lookup, fmt, llm).reply.query == Strip(line)
  {
  }

  /** Effects that reply to exactly the non-empty queries, each to its own query. */
  ghost predicate RepliesToQueries(queries: seq<string>, effects: seq<LineEffect>)
  {
    && |effects| == |queries|
    && forall k :: 0 <= k < |queries| ==>
         && (effects[k].Say? <==> queries[k] != "")
         && (effects[k].Say? ==> effects[k].reply.query == queries[k])
  }

  lemma {:induction false} SaidQueries(queries: seq<string>, effects: seq<LineEffect>)
    requires RepliesToQueries(queries, effects)
    ensures RepliedQueries(Said(effects)) == NonBlank(queries)
  {
    if queries != [] {
      assert RepliesToQueries(queries[1..], effects[1..]) by {
        forall k | 0 <= k < |queries| - 1
          ensures queries[1..][k] == queries[k + 1] && effects[1..][k] == effects[k + 1]
        {
        }
      }
      SaidQueries(queries[1..], effects[1..]);
      var head := if effects[0].Say? then [effects[0].reply] else [];
      RepliedQueriesAppend(head, Said(effects[1..]));
    }
  }

  /**
   * A session that ran to the end of the input saw no exit command and
   * replied to every non-blank line, once, in order.
   */
  lemma ReplyPerQuery(lines: seq<string>, lookup: string -> Lookup,
                      fmt: real -> string, llm: Request -> Option<string>)
    requires Repl(lines, lookup, fmt, llm).end == InputClosed
    ensures forall k :: 0 <= k < |lines| ==> !IsExitCommand(Strip(lines[k]))
    ensures RepliedQueries(Repl(lines, lookup, fmt, llm).replies) == Queries(lines)
  {
    var effects := Effects(lines, lookup, fmt, llm);
    var queries := seq(|lines|, i requires 0 <= i < |lines| => Strip(lines[i]));
    RunToEnd(effects);
    forall k | 0 <= k < |lines|
      ensures !IsExitCommand(Strip(lines[k]))
      ensures effects[k].Say? <==> queries[k] != ""
      ensures effects[k].Say? ==> effects[k].reply.query == queries[k]
    {
      assert effects[k] == HandleLine(lines[k], lookup, fmt, llm);
      LineReply(lines[k], lookup, fmt, llm);
    }
    SaidQueries(queries, effects);
  }

  /**
   * Every reply a line produces answers a non-blank, stripped query that is
   * not an exit command; it is the apology exactly when retrieval found
   * nothing, and otherwise the answer generated from the non-empty
   * retrieved context.
   */
  lemma RepliesFollowRetrieval(line: string, lookup: string -> Lookup,
                               fmt: real -> string, llm: Request -> Option<string>)
    requires HandleLine(line, lookup, fmt, llm).Say?
    ensures var r := HandleLine(line, lookup, fmt, llm).reply;
      && r.query == Strip(line) && r.query != "" && !IsExitCommand(r.query)
      && (r.NoContext? ==> RetrievedChunks(true, true, lookup(r.query), fmt) == Retrieved([]))
      && (r.Answered? ==>
            && r.context != []
            && RetrievedChunks(true, true, lookup(r.query), fmt) == Retrieved(r.context)
            && r.answer == GenerateAnswer(true, r.query, r.context, llm))
  {
  }

  /** Every reply of a session is one that some line of its input produced. */
  lemma {:induction false} RepliesComeFromLines(effects: seq<LineEffect>)
    ensures forall r :: r in Run(effects).replies ==> Say(r) in effects
  {
    if effects != [] {
      RepliesComeFromLines(effects[1..]);
    }
  }
}
