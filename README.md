# A verified model of a retrieval chatbot's core

The system is a chatbot. It answers questions about a university's frequently asked
questions, using retrieved document fragments, and it remembers conversations.

- Gemini generates the answers and the embeddings.
- BigQuery holds the fragments, users, conversations and messages.
- Cloud Storage holds uploaded and ingested files.
- Gradio shows the chat.

This project models the logic inside that glue:

- **Retrieval.** An in-memory retriever scores loaded fragments, keeps those above a
  threshold, sorts them stably by descending score, cuts to `top_k`, and builds a
  numbered context prompt. A warehouse vector search interpolates only table names into
  its SQL text and binds every value as a parameter.
- **Citations.** The retrieval tool records one citation per retrieved fragment.
- **Conversation memory.** There are two backends: a local directory of conversation
  documents, and warehouse tables. The warehouse read folds joined rows into one
  conversation.
- **Bootstrap.** One bot session gets or creates its user and conversation.
- **Turns.** The bot keeps an agent cache, emits one event per chunk, and persists only
  after the final answer. An older streaming path stops at the first malformed chunk and
  accumulates the displayed text.
- **Ingestion.** Document text is cut into 1000-character slices, with one row per slice.
- **Small helpers:** MIME-type dispatch, rendering quotes to HTML, and the filter that
  hides development tools.

External services are parameters of the operations:

- the embedding and generation models, the similarity function and the MIME guesser;
- file reads, the document partitioner, and query results;
- the uuid and clock values.

Where a call must not happen, the operation returns a log of the calls it made, and its
contract says the log is empty.

The modules follow the source files:

| module | file |
|---|---|
| `InMemoryRag` | `tool_with_rag.dfy` |
| `VectorRag` | `rag.dfy` |
| `RagToolset` | `rag_toolset.dfy` |
| `Memory` | `memory.dfy` |
| `ConversationRepository` | `conversation_repository.dfy` |
| `Warehouse` | `warehouse.dfy` |
| `Factory` | `factory.dfy` |
| `ChatBot` | `bot.dfy` |
| `Chat` | `chat.dfy` |
| `Adapter` | `adapter.dfy` |
| `Ingestion` | `embedding.dfy` |
| `InfoSave` | `info_save.dfy` |
| `Details` | `details.dfy` |
| `ChatTools` | `tools_toolset.dfy` |

Shared pieces live in their own modules:

- `Types` holds the records.
- `StableSort` is a stable sort by a real key, with proofs that it orders, permutes and
  keeps ties.
- `Strings` holds joins with offsets, occurrences, and number printing.
- `Wrappers` holds `Option`, `Result` and `Outcome`.

## Model

| member | source | states |
|---|---|---|
| InMemoryRag.RAGTool.LoadDocumentsFromBigQuery | src/tools/tool_with_RAG.py:120-132 | the loaded list is the old list followed by one document per row, in row order; the document at row index i has id "{document_id}_{i}", the row's text and embedding, and its document id and date as metadata |
| InMemoryRag.LoadedIdsDistinct | src/tools/tool_with_RAG.py:123 | the ids built in one load are pairwise distinct, whatever the document ids are, because the number after the last "_" is the row index |
| InMemoryRag.RAGTool.ScoreDocuments | src/tools/tool_with_RAG.py:151-155 | the similarity list scores, in load order, exactly the documents whose embedding is present and non-empty |
| InMemoryRag.RAGTool.RetrieveRelevantDocuments | src/tools/tool_with_RAG.py:143-171 | with no documents loaded: two empty lists, and the embedding service is not called; otherwise: the query is embedded once, and the documents and scores are index-aligned and equal to the selection |
| InMemoryRag.PySliceTo | src/tools/tool_with_RAG.py:165 | Python's `s[:k]`: a prefix of s of length min(k, len s), or for a negative k all but the last -k elements |
| InMemoryRag.ScoredMember | src/tools/tool_with_RAG.py:152-155 | a pair is scored exactly when its document is loaded with a non-empty embedding and its score is the similarity to the query |
| InMemoryRag.AboveThresholdMember | src/tools/tool_with_RAG.py:158-161 | a pair survives the filter exactly when its score is at least the threshold |
| InMemoryRag.CandidateIff | src/tools/tool_with_RAG.py:151-161 | a candidate is exactly a loaded document with an embedding, scored by the similarity, at or above the threshold |
| InMemoryRag.SelectedSound | src/tools/tool_with_RAG.py:151-165 | every returned pair has a loaded document with a non-empty embedding, its true similarity, and a score at least the threshold |
| InMemoryRag.SelectedOrderedAndBounded | src/tools/tool_with_RAG.py:164-165 | returned scores never increase, and the count is min(top_k, candidates), with Python's rule for a negative top_k |
| InMemoryRag.SelectedIsTopK | src/tools/tool_with_RAG.py:158-165 | the selection is a sub-multiset of the candidates, and every candidate left out scores no higher than any returned one |
| InMemoryRag.PrefixIsTop | src/tools/tool_with_RAG.py:164-165 | in a sequence sorted by descending score, a prefix holds the highest scores |
| InMemoryRag.SelectedStable | src/tools/tool_with_RAG.py:164 | equal scores keep load order: for each score, the returned pairs with it are the first ones with it among the candidates, in candidate order |
| InMemoryRag.PromptHasQuery | src/tools/tool_with_RAG.py:175-190 | the prompt contains the query: after "Consulta: " when there are no documents, and after the documents and the query heading otherwise |
| InMemoryRag.PromptNumbersDocuments | src/tools/tool_with_RAG.py:178-188 | the i-th block reads "Documento i:", a newline, the i-th content and a newline, numbered from 1, and sits in the prompt at its offset after the head |
| InMemoryRag.PromptDocumentsInOrder | src/tools/tool_with_RAG.py:182 | the blocks appear in input order: a newline follows each block, and the next block starts right after it |
| InMemoryRag.RAGTool.constructor | src/tools/tool_with_RAG.py:54-58 | a new retriever has no documents; its prompt template is the text of `_create_context_prompt` word for word |
| InMemoryRag.RAGTool.Query | src/tools/tool_with_RAG.py:202-233 | the response holds the retrieved documents and index-aligned scores, the context prompt over exactly those documents, and the generated text, or "No se pudo generar una respuesta." when the generation has no text; the query is embedded once when documents are loaded, and never when none are |
| VectorRag.GetEmbedding | src/rag/rag.py:15-19 | the first embedding of the response, or None exactly when the response has none |
| VectorRag.SqlIndependentOfValues | src/rag/rag.py:35-43 | the SQL text depends only on the project, dataset and table; the query text, embedding, top_k and threshold never change it |
| VectorRag.ParametersMatchPlaceholders | src/rag/rag.py:39-55 | exactly three parameters are bound: the FLOAT64 embedding array, the INT64 top_k and the FLOAT64 threshold; their names are, in order, the placeholders of the text |
| VectorRag.CollectRows | src/rag/rag.py:61-66 | one (fragment, distance) pair per result row, in row order |
| VectorRag.RetrieveWithVectorSearch | src/rag/rag.py:21-66 | without an embedding: empty result and no query issued; otherwise: exactly one query issued, with the embedding bound as a parameter, and one pair per returned row, in row order |
| RagToolset.CitationsIgnoreDistance | src/rag/toolset.py:28-32 | results that differ only in distances give the same citations |
| RagToolset.AppendCitations | src/rag/toolset.py:28-32 | the quote list becomes the old list followed by one citation per pair, in order |
| RagToolset.QueryRag | src/rag/toolset.py:12-34 | the search result is returned unchanged; the quotes grow by exactly its length; earlier quotes stay in front; the i-th new quote is Citation(document_id, fragment_text) of the i-th pair |
| Memory.GetPathInjective | src/chat/memory.py:72-73 | conversation ids without "_", and user and conversation ids without "/" (generated uuids have neither), give distinct paths to distinct (user, conversation) pairs |
| Memory.PathLayoutInjective | src/chat/memory.py:73 | the same injectivity, for any fixed text around the two ids |
| Memory.GetPathCollision | src/chat/memory.py:73 | with a "_" in the conversation id, two different pairs share one file |
| Memory.LocalRetrieve | src/chat/memory.py:61-67 | None exactly when the conversation's file is absent, otherwise the stored conversation |
| Memory.LocalAddThenRetrieve | src/chat/memory.py:29-43 | a local append succeeds exactly when the conversation exists; reading back gives the old messages followed by exactly the new one; the conversation columns stay; every other file is untouched |
| Memory.WarehouseAddThenRetrieve | src/chat/memory.py:26-28 | a warehouse append to an existing conversation, read back with the left join, gives the old messages followed by the new one |
| Memory.AppendKeepsOrder | src/chat/memory.py:34-40 | appending a message stamped no earlier than the others keeps the message rows in time order with ids present |
| Memory.RetrieveConversation | src/chat/memory.py:49-69 | locally, the stored conversation or None when the file is absent; in the warehouse, the repository's read as written (inner join), so a conversation without messages gives None |
| Memory.AddMessage | src/chat/memory.py:16-45 | locally: assertion failure without a file, else only this conversation's file gets one message (new id, the conversation id, the sender, the messages, the time) at the end; in the warehouse: one message row appended and no file written |
| Warehouse.ReadUser | src/repository/user.py:43-52 | the user with this id exactly when the users table has one |
| Warehouse.CreateUser | src/repository/user.py:21-41 | appends one user row with the fresh id and returns that id; other tables unchanged |
| Warehouse.CreateMessage | src/repository/message.py:33-65 | the intended append: one message row with the fresh id, the conversation id, the sender, the messages and the time; other tables unchanged (as written every call returns None, see "Left out") |
| ConversationRepository.Create | src/repository/conversation.py:20-51 | uses the given id, or the generated one when none is given; appends one row without checking for an existing one; returns the id used |
| ConversationRepository.FoldRows | src/repository/conversation.py:75-100 | the row loop computes the fold: none for no rows, else the first row's columns and one message per row with a message id, in row order |
| ConversationRepository.Read | src/repository/conversation.py:53-100 | the read as written, with the inner join |
| ConversationRepository.ReadLeftJoin | src/repository/conversation.py:53-100 | the read with a left join: None exactly when no conversation row has the id |
| ConversationRepository.Delete | src/repository/conversation.py:102-108 | removes the conversation rows with the id, leaves the messages table, returns true |
| ConversationRepository.ReadNoneIff | src/repository/conversation.py:63-76 | as written, the read finds nothing exactly when there is no conversation row or no message row for the id |
| ConversationRepository.ReadLeftJoinNoneIff | src/repository/conversation.py:75-76 | with the left join, nothing is found exactly when no conversation row has the id |
| ConversationRepository.ReadBelongsAndOrdered | src/repository/conversation.py:66-98 | a read conversation has the requested id and a stored row's columns; every message has that conversation id, a non-empty message id and a timestamp; timestamps never decrease |
| ConversationRepository.MessagesOfSorted | src/repository/conversation.py:67-98 | rows ordered by timestamp give messages ordered by timestamp |
| ConversationRepository.MessagesOfOrigin | src/repository/conversation.py:88-98 | every read message comes from a kept row |
| ConversationRepository.MessagesOfMatches | src/repository/conversation.py:89-96 | each message copies message id, conversation id, sender and text from its row, and its timestamp from the message timestamp |
| ConversationRepository.JoinRowsOrigin | src/repository/conversation.py:63-65 | every joined row comes from a conversation row and a message row |
| ConversationRepository.JoinRowsEmpty | src/repository/conversation.py:64 | the inner join is empty exactly when either side is |
| ConversationRepository.ReadComplete | src/repository/conversation.py:53-100 | as written, for one conversation row with messages, the read returns that row's columns and, with multiplicity, exactly the message rows with the id and a non-empty message id, in whatever order they were appended |
| ConversationRepository.ReadAfterAppends | src/repository/conversation.py:53-100 | for one conversation row and messages in time order, the read gives that row's columns and exactly its messages, in order; with messages, both joins agree |
| ConversationRepository.ReadNoMessages | src/repository/conversation.py:78-85 | with the left join, a conversation without messages reads as its columns and no messages |
| ConversationRepository.EmptyConversationReadsAsNone | src/repository/conversation.py:64 | as written, an existing conversation without messages reads as None; with the left join it reads with no messages |
| ConversationRepository.ReadRepeatsMessages | src/repository/conversation.py:53-100 | as written, with k conversation rows for one id (create at lines 20-51 never refuses an existing id), the read returns each message with a message id exactly k times |
| ConversationRepository.DuplicateCreateRepeatsMessages | src/repository/conversation.py:29-67 | an illustration of the general lemma above: two creates with one id are both kept, and the read then returns the one message twice, in order |
| ConversationRepository.ReadAfterDelete | src/repository/conversation.py:102-108 | after delete the conversation cannot be read, although its messages remain |
| ConversationRepository.SortedLength | src/repository/conversation.py:67 | the ORDER BY keeps every row and adds none |
| ConversationRepository.QueryResultOfSorted | src/repository/conversation.py:67 | rows already in timestamp order come out unchanged |
| ConversationRepository.MessagesWithIdAppend | src/repository/conversation.py:64-66 | a message row appended to the table joins its own conversation's rows, last |
| ConversationRepository.ConversationsWithIdAppend | src/repository/conversation.py:29-49 | a conversation row appended to the table is the last row with its id |
| Factory.MissingUserCreatedEachTime | src/chat/factory.py:26-30 | a missing user is created under a fresh id, not the configured one, so two bootstraps create two users |
| Factory.ConversationBootstrapIdempotent | src/chat/factory.py:32-40 | with the left-join read, the conversation exists after the bootstrap, and a second bootstrap adds no row |
| Factory.BootstrapAsWrittenDuplicates | src/chat/factory.py:32-40 | with the read as written, a second bootstrap creates the same conversation again; with the left join it does not |
| Factory.BootstrapsAgreeWithMessages | src/chat/factory.py:32-40 | once the conversation has a message, the bootstrap as written and the corrected one give the same table and conversation |
| Factory.LocalBootstrapIdempotent | src/chat/factory.py:42-57 | locally, the file exists afterwards and holds the returned conversation; only that file may change; a second bootstrap changes nothing |
| Factory.GetDefaultDependencies | src/chat/factory.py:20-66 | fresh dependencies with the environment, no quotes, and the resolved user and conversation, the conversation found by the read as written (inner join), so a stored conversation without messages gets a second row; the warehouse path writes only users and conversations, the local path only the directory, and the local user is always the configured id |
| ChatBot.TurnEventsShape | src/chat/bot.py:76-90 | one answer per chunk, in stream order, with no quotes; then one final answer with the last chunk (or "" for none) and the turn's quotes; then exactly one persist of all messages, after the final answer |
| ChatBot.Bot.constructor | src/chat/bot.py:21-30 | a missing agent map starts empty |
| ChatBot.Bot.GetAgent | src/chat/bot.py:52-59 | the cached agent when the user has one, with the cache unchanged; otherwise the new agent, stored under that user only |
| ChatBot.Bot.GetDependencies | src/chat/bot.py:61-67 | fresh dependencies with the environment and an empty quote list |
| ChatBot.Bot.Answer | src/chat/bot.py:69-90 | the run gets the user's cached or new agent and the user's stored history; the events are that run's turn events; the agent is cached under the user; the stored history becomes all of the run's messages |
| Chat.FirstBad | src/chat/chat.py:24-29 | the index of the first chunk lacking candidates, content or parts, or the chunk count |
| Chat.AnswerStreamShape | src/chat/chat.py:24-33 | good chunks give their parts in order; the first bad chunk gives the one error part, and nothing follows; the count is the chunk count if all are good, else the first bad index plus one |
| Chat.Memo.GetClient | src/chat/chat.py:9-11 | the same client for the same key; a first call stores the new one |
| Chat.Memo.GetChat | src/chat/chat.py:14-16 | the same session for the same id; a first call creates it with the key's client and "gemini-2.0-flash" |
| Chat.Memo.Answer | src/chat/chat.py:19-33 | the message goes to the "test" session: a first call creates it with the key's client and "gemini-2.0-flash" and memoises that client, later calls change nothing; the output is the stream mapping of its response |
| Adapter.HandleFiles | src/ui/adapter.py:13-31 | fails the assertion exactly when some file has no type, given or guessed; otherwise one bytes part per file, in order, with the file's bytes and type |
| Adapter.ExtractParts | src/ui/adapter.py:33-35 | the text part, then one part per file, with every type guessed from the path |
| Adapter.ExtractedShape | src/ui/adapter.py:33-35 | failure exactly when some path has no guessable type; otherwise the text part first and then the files' parts in input order |
| Adapter.AccTextPrefix | src/ui/adapter.py:42-45 | the accumulated text only grows, and each chunk adds its first part's text, with None as "" |
| Adapter.DisplaysGrow | src/ui/adapter.py:44-46 | every update shows non-empty text and no files, and once text has arrived each update continues every earlier one |
| Adapter.UiStream | src/ui/adapter.py:42-46 | one update per chunk, each showing the accumulated text or "What" |
| Adapter.UiToChat | src/ui/adapter.py:37-46 | fails like the extraction; otherwise the updates for the chat's answer to the extracted parts |
| Ingestion.LocalPath | src/data/embedding.py:37 | "/tmp/" followed by the name's last "/"-segment: a suffix of the name with no "/", preceded by "/" when shorter than the name |
| Ingestion.NonEmptyTexts | src/data/embedding.py:42 | exactly the non-empty element texts |
| Ingestion.NonEmptyTextsAppend | src/data/embedding.py:42 | the non-empty texts are kept element by element, in order |
| Ingestion.Chunks | src/data/embedding.py:45 | ceil(len/1000) slices, each of 1 to 1000 characters, all but the last exactly 1000 |
| Ingestion.ChunksConcat | src/data/embedding.py:45 | the slices concatenate back to the text, and an empty text gives no slices |
| Ingestion.ChunksStep | src/data/embedding.py:45 | a text longer than one slice is its first slice followed by the slices of the rest |
| Ingestion.BlobRowsFragments | src/data/embedding.py:47-54 | a file blob's rows carry its name and each slice's embedding, and their fragments concatenate back to its text |
| Ingestion.RowsOfConcat | src/data/embedding.py:31-54 | rows come blob after blob, in listing order |
| Ingestion.RowsFromFiles | src/data/embedding.py:31-33 | every row names a listed blob that is not a directory marker |
| Ingestion.DocumentProcessing | src/data/embedding.py:29-54 | the nested loops build exactly the rows of every blob, in blob-then-slice order |
| InfoSave.GetFileExtension | src/chat/info_save.py:52-79 | the listed extension for the 14 listed types, ".bin" exactly for any other; always a dot and more |
| InfoSave.ExtensionsWellFormed | src/chat/info_save.py:62-77 | every listed extension starts with a dot and none is ".bin" |
| InfoSave.ExtensionsDistinct | src/chat/info_save.py:62-77 | no two listed types share an extension |
| InfoSave.ExtensionIdentifiesType | src/chat/info_save.py:62-79 | two types with the same extension are the same listed type, or both unlisted |
| InfoSave.CreateTypedUrl | src/chat/info_save.py:82-100 | image, audio or video URL exactly for those prefixes, checked in that order, else a document URL; URL and type kept |
| InfoSave.ListedTypesKinds | src/chat/info_save.py:93-100 | an illustration of CreateTypedUrl's contract on listed types: image, audio, video and other types get the matching URL kind |
| InfoSave.BlobName | src/chat/info_save.py:37-38 | "uploads/" + file id + extension |
| InfoSave.BlobNameInjective | src/chat/info_save.py:37-38 | for ids of one length, the name gives back the id and the extension |
| Details.RenderCitationShows | src/ui/details.py:11-17 | the citation shows its text in quotation marks, then "— " and the author |
| Details.RenderLinkShows | src/ui/details.py:19-29 | the link shows href="link", its text in quotation marks, then "— " and the author |
| Details.RenderQuoteShows | src/ui/details.py:33-40 | whatever its kind, a rendered quote shows its text in quotation marks and "— " with its author, and a link also shows its target as href |
| Details.RenderQuotes | src/ui/details.py:43-47 | no panel exactly when there are no quotes |
| Details.RenderQuotesHead | src/ui/details.py:48-52 | the panel opens with its head, and the title sits inside the summary |
| Details.RenderQuotesPartAt | src/ui/details.py:47-53 | the i-th rendered quote is the i-th quote's rendering, at its offset after the summary |
| Details.RenderQuotesInOrder | src/ui/details.py:47 | consecutive quotes are one newline apart, in input order |
| ChatTools.VisibleTools | src/chat/tools/toolset.py:36-38 | the offered tools are exactly the registered ones that pass the filter |
| ChatTools.DevSeesEverything | src/chat/tools/toolset.py:37 | in development every tool is offered, in order |
| ChatTools.ProdHidesDevTools | src/chat/tools/toolset.py:37 | in production a tool is offered exactly when it lacks the "dev_" prefix, and such a tool is offered everywhere |
| ChatTools.DebugToolDevOnly | src/chat/tools/toolset.py:10-37 | the example tool is offered in development only |
| ChatTools.DevDebugDependencies | src/chat/tools/toolset.py:12-31 | returns the dependencies unchanged |
| StableSort.SortByOrderedPermutation | src/tools/tool_with_RAG.py:164 | the sort orders its input and permutes it |
| StableSort.SortByStable | src/tools/tool_with_RAG.py:164 | for each key, the elements with that key keep their input order |

## Left out

- Cosine similarity is the parameter `sim`, and scores are mathematical reals. Floating-point
  rounding is not modelled.
- Network and storage calls are parameters or are left out:
  - the BigQuery load query, its LIMIT clause, and the row iteration protocol;
  - Gemini calls, uploads and downloads, the document partitioner, and printing.
- The final BigQuery insert in ingestion is not modelled. The rows it would insert are
  the result.
- `query_rag_with_bigquery` and the other command-line entry points of the retrieval
  module are not modelled: they construct clients and print.
- The JSON and pydantic encoding of conversations is not modelled. The local directory
  maps paths to conversation values, and `model_validate` is the identity.
- Memory.GetPath: paths are compared as text. The source builds a `pathlib` path, and
  two things about it are not modelled:
  - `pathlib` collapses "//" and "/./", so ids such as "a//b" and "a/b" name one file;
  - a "/" inside an id names a subdirectory that does not exist, so the write in the
    bootstrap (src/chat/factory.py:53) and in the local append raises
    `FileNotFoundError`, while Factory.ResolveLocal and Memory.LocalAdd succeed.

  The ids default to generated uuids (src/env.py:15-16), which contain no "/".
  Memory.GetPathInjective therefore assumes ids without "/".
- Memory.MemoryDir: the absolute prefix of the memory directory depends on where the
  program is installed. Only the relative part is modelled.
- ConversationRepository.Read: BigQuery does not promise an order among rows with equal
  timestamps. The model keeps table order for ties, using the same stable sort.
- ConversationRepository.Read: the source runs the query twice and reads the first row
  from the first run. The model uses one result for both.
- Memory.AddMessage: in the warehouse case, the source passes three arguments to a
  repository method that takes two, so as written the call raises a `TypeError`. The
  model appends the intended row with the conversation id, sender and messages (see
  Warehouse.CreateMessage).
- Memory.RetrieveConversation is called by the bot with a user id, and the bot calls a
  `set_conversation` that the memory module does not define. The bot is therefore
  modelled against its own history map, `saved`.
- The factory passes `deps=` to a bot that takes `env=`. The bot's dependencies class
  lacks the quotes, user and conversation fields that the other modules use.
  `Types.Dependencies` holds the fields the modules use.
- ChatBot.Bot.Answer: the agent's run is the parameter `run`. Safety settings, retries
  and the tool-calling protocol are not modelled.
- Adapter.UiStream requires every chunk to have a first part. The source would raise an
  index error on an empty chunk. The chat stream never produces one
  (Chat.AnswerStreamShape).
- InMemoryRag.RAGTool.LoadDocumentsFromBigQuery: the date's `isoformat()` text is the
  row's optional string.
- Details.RenderQuotes: the `gradio.HTML` component that wraps the panel's HTML is not
  modelled.
- Warehouse.CreateMessage models the append that src/chat/memory.py:27 intends, not
  message.py as written:
  - as written, the record is built without the required `sender` field
    (src/repository/message.py:42-47, declared at line 16);
  - so the validation raises inside the `try`, and every call returns None at
    lines 66-69; the load job at lines 57-63 and the return at line 65 are never reached;
  - message.py:11 imports `MessageContent` and `MessagesContentTypeAdapter` from
    src/chat/memory.py, which defines neither and imports message.py back, so the
    module cannot be imported as written;
  - the model takes the three-argument interface that memory.py:27 calls (conversation
    id, sender, messages), always appends one row, and returns the new id.
- InfoSave upload: storage calls, making the blob public, and reading the public URL are
  not modelled. The file id is a parameter.
- Chat: the session's internals are not modelled. Sending a message is the parameter
  `send`.

## Findings

| source | as written | input that shows it | evidently intended | confidence | as-written member | corrected member |
|---|---|---|---|---|---|---|
| src/repository/conversation.py:64 | the read joins conversations to messages with an inner JOIN, so an existing conversation with no messages reads as None, and the bootstrap at src/chat/factory.py:33-36 creates it again on every start | a conversation table holding one row for "c" and an empty message table: the read returns None, and a second bootstrap appends a second row for "c" | a LEFT JOIN: the `if row.message_id` guard at line 89 only has work to do when rows without a message can arrive | not executed | ConversationRepository.EmptyConversationReadsAsNone, Factory.BootstrapAsWrittenDuplicates | ConversationRepository.ReadLeftJoin, Factory.ConversationBootstrapIdempotent |

The operations that read a conversation, Memory.RetrieveConversation and
Factory.GetDefaultDependencies, run the read as written. The corrected read is modelled
alongside it. ConversationRepository.ReadAfterAppends and Factory.BootstrapsAgreeWithMessages
show that the two agree once the conversation has a message.
