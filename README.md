# rag-pdf in Dafny

A model of the core of *rag-pdf*, a question-answering service over PDF
documents. Users upload PDFs through a Streamlit page. The FastAPI back end
extracts each document's text (OCR where a page has too little native text),
splits it into chunks, embeds them and stores them in a Milvus collection.
Questions are embedded, the five nearest chunks are retrieved, and a chat
model answers from a prompt built out of them and the recent chat history.

Every external library is an uninterpreted function:

- `DocumentProcessor` holds PyPDF2's page texts, pdf2image's renderer,
  pytesseract's OCR, the LangChain splitter and the two OpenAI embedding
  calls as constant fields;
- `MilvusVectorStore` holds Milvus's approximate search and `uuid.uuid4`
  the same way;
- the chat model is the field `RAGPipeline.llm`, passed as an argument to
  `LlmService.GenerateAnswer`. No `LangGraphLLMService` object is modelled:
  it holds only its configuration (`api_key`, `model_name`), the chat model and the graph;
- the UI's two HTTP posts are parameters of `ChatSession.AskQuestion` and of
  `Ui.UploadDocuments`.

The project verifies the code's own logic around these functions.

| file | models |
|---|---|
| `Common.dfy` | `Result`/`Option`, the exceptions, chunk and search-result records, Python's `strip`, `join`, `lower`, `endswith` |
| `VectorStore.dfy` | `MilvusVectorStore`: the cached collection handle over the server catalog, insertion as four parallel columns, uuid strings, hit flattening |
| `DocumentProcessor.dfy` | `DocumentProcessor`: per-page extraction with OCR fallback, chunking, in-place attachment of embeddings to an array of chunks |
| `LlmService.dfy` | `LangGraphLLMService`: context and history texts, the system prompt, the single model call |
| `RagPipeline.dfy` | `RAGPipeline`: process-then-insert, and embed-search-generate |
| `Api.dfy` | `main.py`: the `/documents` upload loop with temporary files and counters, and `/question` validation |
| `Ui.dfy` | `ui.py`: the session's message log, the ten-entry history and the two client requests |

Each stateful operation is a method whose contract ties its result and the
new state to a specification function of the old state, and the properties
are lemmas about those functions. For example:

- `InsertChunks` matches `InsertOutcome`;
- `UploadDocuments` matches `UploadOutcome`;
- the page loop of `extract_text_from_pdf` matches `ExtractedText`.

The Milvus server is seen through its catalog of collections (schema,
indexes, rows, loaded flag). `self.collection` is the name of the cached
handle, and the n-th `uuid4()` call returns `uuid4(n)`.

Two behaviours of the code are modelled as they are:

- The code does not isolate sessions. The store caches one collection
  handle for its whole life, so a later call with another `session_id`
  keeps using the first collection (see `EnsureCollectionSpec` and
  `InsertIgnoresLaterSession`).
- The upload endpoint does not isolate files. An exception while processing
  one file is not caught: it ends the whole request, and the files after it
  are never looked at (see `AbortIgnoresRest`). The temporary file of the
  failing upload is still removed.

## Model

| member | source | states |
|---|---|---|
| Common.Strip | app/services/document_processor.py:37 | `s.strip()`: `rstrip` of `lstrip` over Python's `isspace` set; the four lemmas below characterise it |
| Common.TrimStartSpec | app/services/document_processor.py:37 | `lstrip` leaves a suffix that starts with a non-space, and drops only whitespace before it |
| Common.TrimEndSpec | app/services/document_processor.py:37 | `rstrip` leaves a prefix that ends with a non-space, and drops only whitespace after it |
| Common.StripIsSlice | app/services/document_processor.py:37 | `strip()` keeps one contiguous slice of the text, and everything before it is whitespace |
| Common.StripDropsTrailingSpace | app/services/document_processor.py:37 | every character `strip()` drops after the kept slice is whitespace |
| Common.StripTrimmed | app/services/document_processor.py:37 | the stripped text neither starts nor ends with whitespace |
| Common.Join | app/services/llm_service.py:44-50 | `sep.join(parts)`; characterised by `JoinAppend` and `JoinLength` |
| Common.JoinAppend | app/services/llm_service.py:44-50 | `sep.join(a + b)` is `sep.join(a) + sep + sep.join(b)` for non-empty runs |
| Common.JoinLength | app/services/llm_service.py:44-50 | a join's length is the sum of the parts plus one separator between each pair of neighbours |
| Common.Lower | app/main.py:58 | `lower()` keeps the length of the name |
| VectorStore.UuidString | app/services/vector_store.py:84 | `str(uuid)` has 36 characters with hyphens at positions 8, 13, 18 and 23 |
| VectorStore.UuidStringRoundTrip | app/services/vector_store.py:84 | reading back the hex digits of `str(uuid)` gives the 128-bit value |
| VectorStore.UuidStringInjective | app/services/vector_store.py:84 | two uuids have the same string exactly when they are equal |
| VectorStore.CollectionSchema | app/services/vector_store.py:42-55 | the four fields: `id` VARCHAR primary key of at most 36, `text` VARCHAR of at most 65535, `source` VARCHAR of at most 255, `embedding` FLOAT_VECTOR of width `dim` |
| VectorStore.SearchParams | app/services/vector_store.py:115-122 | the request for one query vector: field `embedding`, COSINE, `ef` 32, `limit=top_k`, output fields `text` and `source` |
| VectorStore.ColumnsToRows | app/services/vector_store.py:90-91 | inserting the columns stores one row per id |
| VectorStore.ToColumns | app/services/vector_store.py:85-90 | the ids column is the ids drawn; `texts`, `sources` and `embeddings` have `len(chunks)` entries, and entry i is copied from `chunks[i]` |
| VectorStore.InsertedRows | app/services/vector_store.py:84-91 | row i of the inserted columns is `(ids[i], chunks[i].text, chunks[i].source, chunks[i].embedding)` |
| VectorStore.HitRecords | app/services/vector_store.py:127-134 | one record per hit of a group |
| VectorStore.FlattenHits | app/services/vector_store.py:125-136 | all hits of all groups, group after group; characterised by `FlattenHitsAt`, `FlattenHitsLength` and `FlattenHitsFrom` |
| VectorStore.FlattenHitsAt | app/services/vector_store.py:125-136 | hit h of group g becomes record `TotalHits(groups[..g]) + h`, its text, source and score unchanged |
| VectorStore.FlattenHitsLength | app/services/vector_store.py:125-136 | there are exactly as many records as hits |
| VectorStore.FlattenHitsFrom | app/services/vector_store.py:125-136 | every record is the copy of some hit, at that hit's group-then-hit position |
| VectorStore.MilvusVectorStore.constructor | app/services/vector_store.py:18-27 | `dim` is 1536 and no collection handle is cached |
| VectorStore.MilvusVectorStore.NewCollection | app/services/vector_store.py:42-68 | a created collection: `CollectionSchema(1536)`, the single index `EmbeddingIndex` on `embedding` (COSINE, HNSW, `M` 8, `efConstruction` 64), no rows, not loaded |
| VectorStore.MilvusVectorStore.EnsureCollection | app/services/vector_store.py:37-68 | afterwards a handle is cached and names a collection the server has; no uuid is drawn |
| VectorStore.MilvusVectorStore.NewIds | app/services/vector_store.py:84 | one 36-character id per chunk; id i is the string of uuid draw `from + i` |
| VectorStore.MilvusVectorStore.InsertOutcome | app/services/vector_store.py:81-95 | the cached handle still names a collection the server has |
| VectorStore.MilvusVectorStore.SearchOutcome | app/services/vector_store.py:112-136 | the cached handle still names a collection the server has |
| VectorStore.MilvusVectorStore.CreateCollectionIfNotExists | app/services/vector_store.py:37-68 | the new handle and catalog are `EnsureCollection` of the old state |
| VectorStore.MilvusVectorStore.InsertChunks | app/services/vector_store.py:70-95 | result and new state are `InsertOutcome` of the old state |
| VectorStore.MilvusVectorStore.SearchSimilarChunks | app/services/vector_store.py:97-136 | the nested loop returns `FlattenHits` of the server's hit groups; the collection is bound and loaded |
| VectorStore.EnsureCollectionSpec | app/services/vector_store.py:26-68 | a cached handle is kept and nothing changes; otherwise the handle is bound to `session_id` and, only when the server lacks it, exactly that collection is created, with the four-field schema of width 1536, one COSINE/HNSW index and no rows; existing collections are untouched |
| VectorStore.EnsureCollectionIdempotent | app/services/vector_store.py:37 | a second call, with any session, changes nothing |
| VectorStore.InsertIgnoresLaterSession | app/services/vector_store.py:37-91 | once bound to `a`, an insert under session `b` appends to `a`, and `b`'s collection is neither created nor changed |
| VectorStore.InsertCount | app/services/vector_store.py:81-95 | returns `len(chunks)` exactly when every chunk has an embedding, otherwise raises `KeyError` and writes no row; one uuid is drawn per chunk either way |
| VectorStore.InsertTouchesOnlyBound | app/services/vector_store.py:81-93 | the insert adds no collection and changes none but the bound one |
| VectorStore.InsertAppendsOneRowPerChunk | app/services/vector_store.py:84-91 | the old rows stay as a prefix, followed by one new row per chunk, in chunk order |
| VectorStore.NewIdsDistinct | app/services/vector_store.py:84 | an insert's ids are pairwise distinct exactly when its uuid draws are |
| VectorStore.NewIdsFresh | app/services/vector_store.py:84 | with non-repeating draws, every new id differs from every id drawn before |
| DocumentProcessor.NeedsOcr | app/services/document_processor.py:37 | `not page_text or len(page_text.strip()) < 50`, `None` standing for a page without a text layer |
| DocumentProcessor.Texts | app/services/document_processor.py:74 | entry i is the text of chunk i |
| DocumentProcessor.Attached | app/services/document_processor.py:77-78 | chunk i gets `embeddings[i]`; its text and metadata, and the number of chunks, are unchanged |
| DocumentProcessor.DocumentProcessor.constructor | app/services/document_processor.py:13-19 | the processor holds the given reader, renderer, OCR, splitter and embedder |
| DocumentProcessor.DocumentProcessor.PageText | app/services/document_processor.py:34-45 | a page's text after the OCR branch; characterised by `NativeTextKept` and `OcrReadsLastImageOfPage` |
| DocumentProcessor.DocumentProcessor.ExtractedPages | app/services/document_processor.py:30-48 | the accumulated `text` after the first n pages, page k numbered k + 1; characterised by `PageInPlace`, `ExtractionFailsIff` and `ErrorPersists` |
| DocumentProcessor.DocumentProcessor.ExtractedText | app/services/document_processor.py:29-50 | the reader's failure, or `ExtractedPages` over all pages |
| DocumentProcessor.DocumentProcessor.ChunkText | app/services/document_processor.py:52-65 | one chunk per splitter piece, in order; each carries the given metadata and no embedding |
| DocumentProcessor.DocumentProcessor.ProcessedChunks | app/services/document_processor.py:92-96 | extract, chunk with `{"source": filename}`, embed, attach; characterised by `ProcessedChunksShape` |
| DocumentProcessor.DocumentProcessor.ExtractTextFromPdf | app/services/document_processor.py:21-50 | the page loop, with the OCR image loop inside it, returns `ExtractedText` |
| DocumentProcessor.DocumentProcessor.EmbedChunks | app/services/document_processor.py:67-80 | an embedder failure leaves the array as it was; otherwise the array becomes `Attached(old chunks, embeddings)` and the same array is returned, or `IndexError` is raised when there are fewer embeddings than chunks |
| DocumentProcessor.DocumentProcessor.ProcessDocument | app/services/document_processor.py:82-96 | succeeds exactly when `ProcessedChunks` does, with a fresh array holding its chunks, and otherwise returns the same error |
| DocumentProcessor.DocumentProcessor.ErrorPersists | app/services/document_processor.py:33-47 | once a page raised, the extraction result stays that error |
| DocumentProcessor.DocumentProcessor.ExtractionFailsIff | app/services/document_processor.py:33-47 | the extraction raises exactly when some page ends with no text at all, and the error is `TypeError` |
| DocumentProcessor.DocumentProcessor.PageInPlace | app/services/document_processor.py:30-50 | the text of page k followed by `"\n\n"` comes right after the texts of pages 0 to k-1: the result is the in-order concatenation, since the text ends right after the last page's `"\n\n"` |
| DocumentProcessor.DocumentProcessor.NativeTextKept | app/services/document_processor.py:34-47 | a long-enough native text is used unchanged and unstripped; the text changes only on the OCR path with at least one image |
| DocumentProcessor.DocumentProcessor.OcrReadsLastImageOfPage | app/services/document_processor.py:39-45 | OCR renders only the page itself (`first_page == last_page == page_number`), and the last image's text wins |
| DocumentProcessor.DocumentProcessor.NoPagesNoText | app/services/document_processor.py:30-50 | a document with no pages yields `""` |
| DocumentProcessor.DocumentProcessor.ProcessedChunksShape | app/services/document_processor.py:92-96 | the chunks are the splitter pieces of the extracted text, each with metadata `{"source": filename}` and the embedding at its position |
| LlmService.ContextBlock | app/services/llm_service.py:46 | `f"Fonte para o texto abaixo: {source}\n---\n{text}"` |
| LlmService.ContextBlocks | app/services/llm_service.py:44-49 | one block per chunk, in chunk order: `"Fonte para o texto abaixo: " + source + "\n---\n" + text` |
| LlmService.ContextText | app/services/llm_service.py:44-49 | the blocks joined by `"\n\n"`; characterised by `EmptyContextText`, `SingleContextText` and `ContextTextAppend` |
| LlmService.ChatHistoryText | app/services/llm_service.py:50 | the history joined by `"\n"`; characterised by `ChatHistoryTextAppend` |
| LlmService.SystemPrompt | app/services/llm_service.py:51-63 | the system message's f-string, with the history and context texts in their places; characterised by `SystemPromptLayout` |
| LlmService.PromptMessages | app/services/llm_service.py:51-68 | `[system_message, human_message]` for a state |
| LlmService.GenerateAnswerNode | app/services/llm_service.py:33-70 | the graph node: one model call, whose content becomes the state's `answer` |
| LlmService.GenerateAnswer | app/services/llm_service.py:80-101 | the input state with `answer = ""`, the node applied once, its `answer` returned; characterised by `GenerateAnswerIsOneCall` |
| LlmService.EmptyContextText | app/services/llm_service.py:44-49 | no chunks give an empty context text |
| LlmService.SingleContextText | app/services/llm_service.py:46 | one chunk gives exactly its block |
| LlmService.ContextTextAppend | app/services/llm_service.py:44-49 | the context text of `a + b` is that of `a`, a blank line, then that of `b` |
| LlmService.ChatHistoryTextAppend | app/services/llm_service.py:50 | the history text keeps entry order, with one newline between runs |
| LlmService.SystemPromptLayout | app/services/llm_service.py:51-64 | the history text stands right after the introduction, the context text after it, and the fixed "Ops! Não tenho informações suficientes…" reply is always present |
| LlmService.GenerateAnswerIsOneCall | app/services/llm_service.py:66-101 | `generate_answer` invokes the model once, on the system message and a human message that is the question unchanged, and returns the reply unchanged |
| RagPipeline.RAGPipeline.constructor | app/services/rag_pipeline.py:11-19 | the pipeline keeps the processor, the store and the chat model it is given |
| RagPipeline.RAGPipeline.ProcessOutcome | app/services/rag_pipeline.py:21-37 | the cached handle still names a collection the server has |
| RagPipeline.RAGPipeline.AnswerOutcome | app/services/rag_pipeline.py:39-62 | the cached handle still names a collection the server has |
| RagPipeline.RAGPipeline.ProcessDocument | app/services/rag_pipeline.py:21-37 | result and new store state are `ProcessOutcome`; on success a fresh array holding its chunks |
| RagPipeline.RAGPipeline.AnswerQuestion | app/services/rag_pipeline.py:39-62 | result and new store state are `AnswerOutcome` of the old state |
| RagPipeline.ProcessInsertsProcessorChunks | app/services/rag_pipeline.py:33-37 | exactly the processor's chunks are inserted under the caller's session, all of them are counted, and the same list is returned |
| RagPipeline.ProcessFailureInsertsNothing | app/services/rag_pipeline.py:33-35 | processing fails exactly when the processor raises, and then the store is left as it was |
| RagPipeline.AnswerPassesContextThrough | app/services/rag_pipeline.py:51-62 | the question's embedding is searched in the caller's session with `top_k = 5`; the records retrieved go to the generator and come back unchanged as the context, the answer is the model's reply, and an embedding failure changes nothing |
| Api.IsPdfNameIff | app/main.py:58 | a name passes exactly when it ends in `.pdf` in any mix of upper and lower case |
| Api.IsPdfName | app/main.py:58 | `filename.lower().endswith(".pdf")`; characterised by `IsPdfNameIff` |
| Api.PdfFiles | app/main.py:57-59 | no more entries than uploads; with the four lemmas below, exactly the uploads that pass the suffix test, in upload order |
| Api.PdfPositions | app/main.py:57-59 | reference count: the set of positions whose upload passes the suffix test |
| Api.PdfFilesCount | app/main.py:57-59 | one entry per passing position: `len` equals the number of uploads that pass |
| Api.PdfFilesAllPass | app/main.py:58-59 | every entry passes the suffix test |
| Api.PdfFilesFromUploads | app/main.py:57 | every entry is one of the uploads |
| Api.PdfFilesKeepsInOrder | app/main.py:57-59 | the passing upload at position i is kept, right after those kept from before it |
| Api.Api.constructor | app/main.py:29-33 | the endpoints use the pipeline they are given, and no temporary file exists yet |
| Api.Api.IndexOne | app/main.py:66-71 | the store state after one document keeps the cached handle valid |
| Api.Api.IndexFiles | app/main.py:57-74 | the store state after the first n turns keeps the cached handle valid |
| Api.Api.IndexTurn | app/main.py:57-74 | the store state after turn n keeps the cached handle valid |
| Api.Api.UploadOutcome | app/main.py:43-85 | the store state after the request keeps the cached handle valid |
| Api.Api.AskOutcome | app/main.py:88-105 | the store state after the request keeps the cached handle valid |
| Api.Api.CreateTempFile | app/main.py:61-64 | a new path, not used before, now holds the upload's bytes |
| Api.Api.RemoveTempFile | app/main.py:72-74 | the path is removed and no other file is touched |
| Api.Api.IndexUpload | app/main.py:61-74 | one upload is stored in a temporary file, processed, and counted as `IndexOne`; the temporary file is gone afterwards even when processing raised |
| Api.Api.IndexBatch | app/main.py:57-74 | the loop's counters and store state are `IndexFiles` over all files; no temporary file is left behind |
| Api.Api.UploadDocuments | app/main.py:43-85 | response and new store state are `UploadOutcome`; no temporary file is left behind |
| Api.Api.AskQuestion | app/main.py:88-105 | response and new store state are `AskOutcome` |
| Api.AbortIgnoresRest | app/main.py:66-74 | after an exception, the files that follow are never looked at |
| Api.IndexFilesPrefix | app/main.py:57 | the first n turns depend only on the first n files |
| Api.NonPdfSkippedAt | app/main.py:58-59 | a non-`.pdf` file changes neither the counters nor the store at any later point of the loop |
| Api.NonPdfSkipped | app/main.py:58-59 | removing a non-`.pdf` file from anywhere in the batch changes nothing |
| Api.ChunkTotal | app/main.py:70-71 | reference sum: the chunk counts of the uploads that pass the suffix test and are processed |
| Api.IndexCounts | app/main.py:54-74 | the first n turns succeed exactly when every `.pdf` file among them processes; then `documents_indexed` counts those files and `total_chunks` sums their chunk counts |
| Api.BatchCounts | app/main.py:54-85 | the same over the whole batch |
| Api.AllPdfsProcessStep | app/main.py:66-71 | every `.pdf` file of a batch processes exactly when every `.pdf` file before the last does and the last does |
| Api.IndexOneCount | app/main.py:66-71 | a `.pdf` file counts exactly when the processor handles it, with its number of chunks; otherwise the exception is passed on and the store is unchanged |
| Api.IndexedAtMostFiles | app/main.py:57-85 | on success, `0 < documents_indexed <= len(files)` |
| Api.NoPdfIndexesNothing | app/main.py:57-60 | with no `.pdf` file the loop counts nothing and touches nothing |
| Api.NoPdfRejected | app/main.py:51-79 | an empty batch, or one with no `.pdf` file, is rejected with 400 and the store is unchanged |
| Api.AskPassesThrough | app/main.py:93-105 | an empty question is rejected with 400 before the pipeline runs; otherwise answer and `context_chunks` are the pipeline's, unchanged |
| Ui.Contents | app/ui.py:97-99 | entry i is the content of message i |
| Ui.RecentHistory | app/ui.py:92-105 | at most ten entries: ten when there are more messages, all of them otherwise |
| Ui.ChatSession.constructor | app/ui.py:57-65 | a new page has an empty log and its session id |
| Ui.ChatSession.StateMessagesToList | app/ui.py:92-105 | the append loop and the slice return `RecentHistory` of the log |
| Ui.AskedLog | app/ui.py:117-133 | the log after `ask_question`: the user turn, then the assistant turn only on a reply; characterised by `AskedLogGrowth` |
| Ui.ChatSession.AskQuestion | app/ui.py:108-138 | sends the history computed after the user turn was appended; the log becomes `AskedLog`; the session id is unchanged |
| Ui.RecentHistoryWindow | app/ui.py:101-103 | with ten messages or fewer, all contents are sent; otherwise exactly the last ten |
| Ui.RecentHistoryElements | app/ui.py:97-103 | the history is the contents of the last messages, in log order |
| Ui.SentHistoryEndsWithQuestion | app/ui.py:117-124 | the sent history ends with the question, and before it come the latest earlier turns in order |
| Ui.AskedLogGrowth | app/ui.py:117-133 | the log gains the user turn and, only on a reply, the assistant turn after it; the old log is kept as a prefix |
| Ui.UploadDocuments | app/ui.py:155-173 | no request at all for an empty selection; otherwise the post's reply, `None` for a `RequestException` |
| Ui.EmptyUploadSendsNothing | app/ui.py:162-163 | no files: `None`, whatever the server would answer |

## Left out

- PDF parsing, page rendering and OCR are uninterpreted functions. The reader either fails as a whole or yields one optional text per page. Rendering and OCR are total.
- `RecursiveCharacterTextSplitter` is an uninterpreted function from the text to its pieces. Chunk size 1000 and overlap 200 are its own business, and its code is not part of this model.
- The embedding provider and the chat model are uninterpreted functions that may fail. Whether the model really answers "Ops! …" is up to the model, not the code.
- Milvus search is an uninterpreted function of the collection and the request. The ranking, the cosine scores, the `ef`, `M` and `efConstruction` values and the `limit=top_k` bound are passed along, never interpreted.
- Server-side failures of `has_collection`, `create_index`, `insert`, `load` and `search` are not modelled; those calls always succeed.
- `VectorStore.MilvusVectorStore.InsertOutcome`: does not model the server rejecting an embedding whose width is not `dim`. The model only records the rows.
- `uuid4` is an arbitrary function of the draw count. The version and variant bits, and the randomness itself, are not modelled, so distinctness is proved relative to distinct draws.
- `connections.connect`, environment variables, `load_dotenv`, FastAPI routing, CORS and the `async` scheduling are I/O and framework wiring.
- Temporary files are a map from a path number to bytes. File names, the `.pdf` suffix of the temporary name, and `shutil.copyfileobj` streaming are not modelled.
- The LangGraph `StateGraph` construction is not modelled. The single node is a plain function, and the graph is the node applied once.
- `Common.Lower`: only the ASCII letters A to Z are lower-cased, not Python's full Unicode case mapping.
- Streamlit rendering, CSS, `display_chat_message`, `handle_user_input`, `context_dialog`, the sidebar widgets and `randomname` session-id generation are not modelled. The session id is a constructor parameter.
- The UI's HTTP posts are uninterpreted functions returning the decoded reply or `None` for a `RequestException`. A reply without an `"answer"` key, which raises `KeyError` in `ask_question`, is not modelled.
- `"\n".join(chat_history)` raises `TypeError` when an entry is not a string, and `/question` accepts any JSON list as `chat_history`. The model types the history as a list of strings, so that failure is not modelled.
- Argument and request defaults are not modelled as defaults: `session_id="default"`, `chat_history=[]` and `top_k=5` as a default of `search_similar_chunks`. Every operation takes these as explicit arguments instead. `answer_question` passes `top_k=5` explicitly, and `TopK` is that value.
- The UI's upload request (app/ui.py:168) sends no `session_id`, so `Api.Api.UploadDocuments` is reached from the UI with `sessionId == "default"` (app/main.py:45). Only the question request carries the page's random id (app/ui.py:65, app/ui.py:121-122). Because the store caches its first handle (`EnsureCollectionSpec`), whichever request reaches a fresh server first picks the collection: `"default"` for an upload, the page's id for a question. The model does not tie the UI and the API together, so it does not state this end to end.
- `Ui.UploadDocuments` builds the multipart `files` list as the files themselves; the form-field tuples are not modelled.
