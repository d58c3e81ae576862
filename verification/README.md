# NutriRAG retrieval-augmented generation pipeline, modelled in Dafny

NutriRAG answers questions about a fixed corpus of nutrition and diabetes PDFs. It has three parts, each modelled here:

- An offline indexer (`src/index_docs.py`). It takes every `.pdf` in the corpus directory and extracts its text. It splits the text into chunks and tags each chunk with a disease category taken from the file name. It attaches an embedding to every chunk, in place. Finally it posts the whole record list to the document store in batches of 500, stopping at the first batch that fails.
- A Streamlit web chat (`app.py`). It retrieves the rows the `match_documents` similarity search returns (service threshold 0.5, at most 5 rows), then keeps only those scored strictly above 0.75. With context it asks the language model for a grounded (RAG) answer at temperature 0.2. Without context it asks for a general-knowledge (FALLBACK) answer at temperature 0.4. Errors are labelled ERROR. The answer is shown with a documents badge or a general-knowledge badge.
- A command-line chatbot (`src/rag_query.py`). It retrieves without the 0.75 cut and always sends a grounded prompt. Its read-answer loop strips each line, leaves on `sair`/`exit`/`quit` in any letter case, skips blank lines and apologises when nothing was retrieved.

Every external collaborator is a parameter of the model:

- the PDF extractor (`extract`);
- the text splitter (`split`);
- the embedding model (`encode`);
- the outcome of each batch POST (`accepts`, by batch number);
- one embed-and-search round trip (`Lookup`: the encoding raised, the remote call raised, or the rows in the service's order);
- the three-decimal score rendering (`fmt`);
- the generation call (`llm`: the answer text, or nothing when the call raises).

The files:

- `text.dfy` (module `Text`) writes out the Python string operations the pipeline relies on: `lower`, `strip`, `in`, `endswith`, `join`.
- `seqs.dfy` (module `Seqs`) holds order-preserving filtering and concatenation of a list of lists.
- `services.dfy` (module `Services`) holds the shared service shapes and the context-entry format.
- `index_docs.dfy`, `app.dfy` and `rag_query.dfy` model the three source files. Their modules are `IndexDocs`, `WebApp` and `RagQuery`.

Points of the code worth noting, which the model follows:

- The category tags are the literal strings of `src/index_docs.py:67-71`: "Diabetes", "Câncer de Estômago" and "Geral/Não Especificado".
- The command-line retrieval applies no 0.75 cut.
- The command-line retrieval encodes the query outside its `try` (`src/rag_query.py:65`). An encoding failure there therefore escapes and ends the chat loop; it does not give an empty result.
- Neither path sorts the rows it keeps: each keeps the service's order. Descending order of the kept rows is proved only for a service that answers in descending order (`WebApp.KeptRowsOrdered`).

## Model

| member | source | states |
|---|---|---|
| Text.Lower | src/rag_query.py:151 | the lower-cased string has the input's length, and each character is lowered on its own |
| Text.LowerIdempotent | src/index_docs.py:66-68 | lower-casing an already lower-cased name changes nothing |
| Text.Strip | src/rag_query.py:149 | the stripped query is a contiguous slice of the line with only whitespace before and after it, and it neither starts nor ends with whitespace |
| Text.StripEmptyIff | src/rag_query.py:149-156 | the stripped line is empty exactly when the line is all whitespace |
| Text.StripIdempotent | src/rag_query.py:149 | stripping a stripped query changes nothing |
| Text.ContainsIff | src/index_docs.py:66-68 | the substring test holds exactly when the keyword occurs at some index |
| Text.JoinContainsParts | src/rag_query.py:99 | every chunk occurs unaltered in the separator-joined context |
| Seqs.KeptIndices | app.py:62-66 | the filtered list takes its elements from strictly increasing positions, and a position is kept exactly when its element passes the test |
| Seqs.FilterBounds | app.py:62-67 | filtering never lengthens the list and keeps only passing elements |
| Seqs.FilterEmptyIff | app.py:78 | the filtered list is empty exactly when no element passes |
| IndexDocs.Category | src/index_docs.py:66-71 | the tag is one of the three literal categories; `CategoryRule` states which one |
| IndexDocs.CategoryRule | src/index_docs.py:66-71 | "diabetes" in the lower-cased name gives Diabetes; otherwise "cancer" or "estomago" gives the stomach-cancer tag; otherwise the unspecified tag; each as an if-and-only-if |
| IndexDocs.CategoryIgnoresCase | src/index_docs.py:66-71 | the category does not depend on the letter case of the file name |
| IndexDocs.ChunkText | src/index_docs.py:54-81 | one record per splitter chunk, in order, with index i and the file name; each record has the file's category, the "nutrição" theme and no embedding yet |
| IndexDocs.GenerateEmbeddings | src/index_docs.py:83-96 | in place, record i receives the embedding of its own content, and no other field of any record changes |
| IndexDocs.BatchCountIff | src/index_docs.py:107 | batch j exists exactly when 500·j is below the record count |
| IndexDocs.BatchesPrefix | src/index_docs.py:107-108 | the first j batches, laid end to end, are the first min(500·j, n) records |
| IndexDocs.BatchesPartition | src/index_docs.py:107-108 | laid end to end, the batches give back all the records in order; no batch is empty, none exceeds 500, and all but the last hold exactly 500 |
| IndexDocs.FirstFailure | src/index_docs.py:111-128 | the first batch whose POST fails: every earlier batch succeeds, and it fails unless it is the batch count |
| IndexDocs.FirstFailureAt | src/index_docs.py:111-128 | a batch that fails after every earlier batch succeeded is the first failure |
| IndexDocs.InsertedBeforeFailure | src/index_docs.py:104-133 | the inserted count is the size of the batches before the first failure, and it equals the total exactly when every batch was accepted |
| IndexDocs.InsertBatches | src/index_docs.py:98-133 | posts the batches in order and stops after the first failing one; the count covers the batches before it; the report says complete exactly when every batch was accepted |
| IndexDocs.CorpusProvenance | src/index_docs.py:162-171 | every indexed record comes from a listed file with non-empty extracted text; its content is one of that text's chunks; it has that file's category and the embedding of its own content |
| IndexDocs.OnlyPdfFiles | src/index_docs.py:156 | only listed files whose names end in ".pdf" contribute records |
| IndexDocs.IndexCorpus | src/index_docs.py:155-179 | the run stops when there is no PDF; it inserts nothing exactly when no PDF yields records; otherwise it posts the corpus's batches in order up to and including the first failing one, counts the records of the batches before it, and reports complete exactly when every batch was accepted |
| Services.FormatMatch | app.py:65 | a context entry is exactly "[Fonte: ", the row's source file, ", Score: ", the rendered score and "] ", followed by the row's content, unaltered |
| WebApp.GetRelevantChunks | app.py:50-71 | nothing when a client is missing or encoding or the search raised; otherwise exactly the formatted rows above the cut, in the service's order |
| WebApp.RelevantChunksExact | app.py:62-67 | the entries come from strictly increasing row positions, and a row is used exactly when its similarity exceeds 0.75 |
| WebApp.KeptRowsOrdered | app.py:62-66 | every kept row scores above 0.75, and rows answered in descending order of similarity stay in that order |
| WebApp.CutoffIsStrict | app.py:64 | a row scored exactly 0.75 is dropped |
| WebApp.AtMostMatchCount | app.py:57-60 | at most 5 entries when the service honours `match_count` |
| WebApp.FiveRowsThreeKept | app.py:62-67 | of rows scored 0.9, 0.8, 0.76, 0.6 and 0.4, exactly the first three are kept, in that order |
| WebApp.AnswerRequest | app.py:78-106 | the request uses the gemini-2.5-flash model; with chunks it carries the RAG instruction at temperature 0.2; without chunks, the fallback instruction at 0.4 |
| WebApp.PromptCarriesContext | app.py:80-97 | the prompt is exactly "Pergunta do Usuário: " + query + "\n\nContexto (se RAG): " followed by the chunks joined in order with "\n---\n" (RAG) or by "N/A" (fallback); hence it carries the question and every chunk verbatim |
| WebApp.GenerateAnswer | app.py:73-112 | ERROR with a fixed message exactly when the client is missing or the call raises; RAG exactly when there were chunks and the call answered; FALLBACK exactly when there were none and it answered; then the model's text |
| WebApp.SourceLabel | app.py:147-148 | the documents icon and label exactly for RAG, and the general-knowledge ones for every other source |
| WebApp.ErrorShownAsFallback | app.py:147-148 | an ERROR answer carries the same badge as a FALLBACK answer |
| WebApp.ChatTurn | app.py:121-153 | no turn at all unless all three clients are up; otherwise the answer is the model's text for the request built from the retrieved chunks, or the generation-failure message exactly when the call raised; the mode is ERROR exactly when the call raised and RAG exactly when it answered with chunks present; the documents icon and label appear for RAG and the 💡 general-knowledge ones otherwise; the message is the bold badge line followed by the answer |
| WebApp.GroundedBadgeIff | app.py:121-153 | a turn is labelled as grounded in the documents exactly when the search returned a row above 0.75 and generation succeeded |
| RagQuery.GetRelevantChunks | src/rag_query.py:55-89 | the encoding failure escapes as an exception; no chunks when a client is missing or the search raises; otherwise one formatted entry per row, in order, with no cut |
| RagQuery.AnswerRequest | src/rag_query.py:99-127 | the request uses the gemini-2.5-flash model, the NutriRAG instruction and temperature 0.2 |
| RagQuery.PromptCarriesContext | src/rag_query.py:99-114 | the prompt opens with the context header, ends with "\n\n---" and the question, and what lies between is exactly the chunks joined in order with "\n---\n"; hence it carries every chunk verbatim |
| RagQuery.GenerateAnswer | src/rag_query.py:92-133 | a fixed message when the client is missing, another when the call raises, the model's text otherwise |
| RagQuery.Chat | src/rag_query.py:137-176 | the loop never starts unless all three clients are up; after that, its replies and the way it ends are those of the line-by-line session |
| RagQuery.HandleLine | src/rag_query.py:149-168 | a line leaves exactly when its stripped, lower-cased text is an exit command; it is skipped exactly when it is otherwise blank; it crashes exactly when it is a query whose encoding raised; a reply always answers its stripped text |
| RagQuery.BlankLineSkipped | src/rag_query.py:149-156 | an all-whitespace line is skipped, with no retrieval and no reply |
| RagQuery.LeaveEndsRun | src/rag_query.py:151-153 | after a line that leaves, no later line has any effect |
| RagQuery.ExitEndsSession | src/rag_query.py:148-153 | an exit command in any letter case ends the session there, and later lines change nothing |
| RagQuery.QuitIffLeave | src/rag_query.py:148-153 | the loop ends by quitting exactly when it meets a leaving line before any line that ends it otherwise |
| RagQuery.QuitIffExit | src/rag_query.py:148-165 | the session ends by quitting exactly when some stripped, lower-cased line is sair, exit or quit and every line before it was skipped or answered |
| RagQuery.RunToEnd | src/rag_query.py:148-165 | a session that reaches the end of its input met no exit and no crash, and replied for each line that said something, in order |
| RagQuery.LineReply | src/rag_query.py:149-168 | a line that neither leaves nor crashes gets a reply exactly when it is not blank, and the reply is to its stripped text |
| RagQuery.ReplyPerQuery | src/rag_query.py:148-176 | a session that ran to the end of the input saw no exit command, and replied to every non-blank stripped line once, in order |
| RagQuery.RepliesFollowRetrieval | src/rag_query.py:149-168 | each reply answers a non-blank stripped query that is not an exit command; it is the apology exactly when retrieval found nothing, and otherwise the answer generated from the retrieved context |
| RagQuery.RepliesComeFromLines | src/rag_query.py:148-176 | every reply of a session was produced by some line of its input |

## Left out

- PDF text extraction (`extract_text_from_pdf`, `src/index_docs.py:41-52`) is the `extract` parameter. An extraction error there returns the empty string, which the model covers, because an empty text contributes no records.
- The recursive character splitter (chunk size 500, overlap 50) is the `split` parameter. Its chunk lengths and overlap are properties of the library, not of this code.
- Embedding numerics and normalisation are the `encode` parameter. An embedding is an uninterpreted `seq<real>`.
- IndexDocs.IndexCorpus: does not model the run aborting when loading the embedding model or encoding raises (`src/index_docs.py:88-89` are outside any `try`, so `main` would stop before any POST). `encode` is total here, so every run with records reaches the insertion.
- HTTP, the `match_documents` RPC and the language model are the `accepts`, `Lookup` and `llm` parameters. The three kinds of exception the POST loop catches all stop it the same way, so they are one outcome.
- The score formatting `:.3f` is the `fmt` parameter.
- Environment and key loading, and the start-up checks for keys and for the corpus directory (`src/index_docs.py:144-153`), are left out. So are logging, timing, console output and the Streamlit page, spinner and session history.
- Client initialisation is left out. Each client is a boolean saying whether it came up.
- `IndexDocs.GenerateEmbeddings` works on an array copy of the chunk list rather than on the dictionaries the list shares. Aliasing between `chunks` and `chunks_with_embeddings` is not modelled.
- Text.Lower: covers only ASCII and Latin-1 capitals, not Python's full Unicode case mapping.
- Text.Strip: uses Python's `isspace` character set for code points up to U+3000.
- A row missing a key (a `KeyError` inside the `try`) is not modelled; the rows are typed.
- A `response.text` that is `None` is not modelled; the model's answer is a string.
- A retried question may meet different service answers. The model treats `lookup` and `llm` as fixed functions of the query and the request.
- The end of input is the end of a finite list of lines. `input()` raising `EOFError` there ends the session as `InputClosed`.
