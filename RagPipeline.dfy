/**
 * `RAGPipeline`: ingestion runs the processor and then the insert;
 * answering embeds the question, retrieves the five nearest chunks of the
 * session and hands them to the answer generator.
 */
module RagPipeline {
  import opened Common
  import opened VectorStore
  import opened DocumentProcessor
  import opened LlmService

  /** The `(answer, context_chunks)` pair of `answer_question`. */
  datatype Answer = Answer(answer: string, contextChunks: seq<SearchResult>)

  /** The number of chunks retrieved per question. */
  const TopK := 5

  class RAGPipeline {
    const documentProcessor: DocumentProcessor
    const vectorStore: MilvusVectorStore
    /** The chat model behind `LangGraphLLMService`. */
    const llm: ChatModel

    constructor (documentProcessor: DocumentProcessor, vectorStore: MilvusVectorStore, llm: ChatModel)
      ensures this.documentProcessor == documentProcessor && this.vectorStore == vectorStore && this.llm == llm
    {
      this.documentProcessor := documentProcessor;
      this.vectorStore := vectorStore;
      this.llm := llm;
    }

    /** What `process_document(path, filename, sessionId)` returns and the store state it leaves. */
    function ProcessOutcome(st: StoreState, file: Pdf, filename: string, sessionId: string)
      : (r: (Result<seq<Chunk>>, StoreState))
      requires st.Valid()
      ensures r.1.Valid()
    {
      match documentProcessor.ProcessedChunks(file, filename)
      case Err(e) => (Err(e), st)
      case Ok(chunks) =>
        var (inserted, st') := vectorStore.InsertOutcome(st, chunks, sessionId);
        match inserted
        case Err(e) => (Err(e), st')
        case Ok(_) => (Ok(chunks), st')
    }

    /** What `answer_question(question, chatHistory, sessionId)` returns and the store state it leaves. */
    function AnswerOutcome(st: StoreState, question: string, chatHistory: seq<string>, sessionId: string)
      : (r: (Result<Answer>, StoreState))
      requires st.Valid()
      ensures r.1.Valid()
    {
      match documentProcessor.embedQuery(question)
      case Err(e) => (Err(e), st)
      case Ok(questionEmbedding) =>
        var (contextChunks, st') := vectorStore.SearchOutcome(st, questionEmbedding, TopK, sessionId);
        match GenerateAnswer(llm, question, chatHistory, contextChunks)
        case Err(e) => (Err(e), st')
        case Ok(answer) => (Ok(Answer(answer, contextChunks)), st')
    }

    method ProcessDocument(file: Pdf, filename: string, sessionId: string) returns (r: Result<array<Chunk>>)
      requires vectorStore.Valid()
      modifies vectorStore
      ensures vectorStore.Valid()
      ensures var (expected, st') := ProcessOutcome(old(vectorStore.State()), file, filename, sessionId);
        && vectorStore.State() == st'
        && (r.Ok? <==> expected.Ok?)
        && (r.Ok? ==> fresh(r.value) && r.value[..] == expected.value)
        && (r.Err? ==> r.error == expected.error)
    {
      var processed := documentProcessor.ProcessDocument(file, filename);
      if processed.Err? {
        return Err(processed.error);
      }
      var chunks := processed.value;
      var inserted := vectorStore.InsertChunks(chunks[..], sessionId);
      if inserted.Err? {
        return Err(inserted.error);
      }
      r := Ok(chunks);
    }

    method AnswerQuestion(question: string, chatHistory: seq<string>, sessionId: string) returns (r: Result<Answer>)
      requires vectorStore.Valid()
      modifies vectorStore
      ensures vectorStore.Valid()
      ensures (r, vectorStore.State()) == AnswerOutcome(old(vectorStore.State()), question, chatHistory, sessionId)
    {
      var questionEmbedding := documentProcessor.embedQuery(question);
      if questionEmbedding.Err? {
        return Err(questionEmbedding.error);
      }
      var contextChunks := vectorStore.SearchSimilarChunks(questionEmbedding.value, TopK, sessionId);
      var answer := GenerateAnswer(llm, question, chatHistory, contextChunks);
      if answer.Err? {
        return Err(answer.error);
      }
      r := Ok(Answer(answer.value, contextChunks));
    }
  }

  // ---------------------------------------------------------------------
  // Properties
  // ---------------------------------------------------------------------

  /**
   * A processed document is inserted as exactly the processor's chunks,
   * under the caller's session, the insert counts all of them, and the
   * same chunks are returned.
   */
  lemma ProcessInsertsProcessorChunks(p: RAGPipeline, st: StoreState, file: Pdf, filename: string, sessionId: string)
    requires st.Valid() && p.documentProcessor.ProcessedChunks(file, filename).Ok?
    ensures var chunks := p.documentProcessor.ProcessedChunks(file, filename).value;
      var (inserted, st') := p.vectorStore.InsertOutcome(st, chunks, sessionId);
      && inserted == Ok(|chunks|)
      && p.ProcessOutcome(st, file, filename, sessionId) == (Ok(chunks), st')
  {
    var chunks := p.documentProcessor.ProcessedChunks(file, filename).value;
    p.documentProcessor.ProcessedChunksShape(file, filename);
    InsertCount(p.vectorStore, st, chunks, sessionId);
  }

  /** A document whose processing raises is never inserted: the store is left as it was. */
  lemma ProcessFailureInsertsNothing(p: RAGPipeline, st: StoreState, file: Pdf, filename: string, sessionId: string)
    requires st.Valid()
    ensures p.ProcessOutcome(st, file, filename, sessionId).0.Err? <==>
            p.documentProcessor.ProcessedChunks(file, filename).Err?
    ensures p.documentProcessor.ProcessedChunks(file, filename).Err? ==>
            p.ProcessOutcome(st, file, filename, sessionId)
            == (Err(p.documentProcessor.ProcessedChunks(file, filename).error), st)
  {
    if p.documentProcessor.ProcessedChunks(file, filename).Ok? {
      ProcessInsertsProcessorChunks(p, st, file, filename, sessionId);
    }
  }

  /**
   * `answer_question` searches the caller's session with `top_k = 5` and
   * the question's embedding; the context it returns is the retrieved list,
   * the very list the generator received, and the answer is the chat
   * model's reply to the prompt built from them.
   */
  lemma AnswerPassesContextThrough(p: RAGPipeline, st: StoreState, question: string, chatHistory: seq<string>,
                                   sessionId: string)
    requires st.Valid()
    ensures var (r, st') := p.AnswerOutcome(st, question, chatHistory, sessionId);
      match p.documentProcessor.embedQuery(question)
      case Err(e) => r == Err(e) && st' == st
      case Ok(questionEmbedding) =>
        var (retrieved, searched) := p.vectorStore.SearchOutcome(st, questionEmbedding, 5, sessionId);
        var messages := [ SystemMessage(SystemPrompt(ChatHistoryText(chatHistory), ContextText(retrieved))),
                          HumanMessage(question) ];
        && st' == searched
        && (r.Ok? <==> p.llm(messages).Ok?)
        && (r.Ok? ==> r.value == Answer(p.llm(messages).value, retrieved))
  {
    if p.documentProcessor.embedQuery(question).Ok? {
      var (retrieved, _) := p.vectorStore.SearchOutcome(st, p.documentProcessor.embedQuery(question).value, 5, sessionId);
      GenerateAnswerIsOneCall(p.llm, question, chatHistory, retrieved);
    }
  }
}
