/**
 * `LangGraphLLMService`: the prompt built from the retrieved chunks, the
 * chat history and the question, and the single chat-model call of the
 * one-node graph. The chat model is an uninterpreted function from the
 * message list to the reply's `content` (or the provider's failure).
 */
module LlmService {
  import opened Common

  datatype Message = SystemMessage(content: string) | HumanMessage(content: string)

  /** `RAGState`. */
  datatype RAGState = RAGState(question: string, chatHistory: seq<string>, context: seq<SearchResult>,
                               answer: string)

  /** `self.llm.invoke(messages).content`. */
  type ChatModel = seq<Message> -> Result<string>

  const SourceLabel := "Fonte para o texto abaixo: "

  /** The fixed reply the prompt asks for when context and history do not hold the answer. */
  const InsufficientInformation := "Ops! Não tenho informações suficientes para fazer minha mágica dos PDFs :("

  /** The system message text before the chat history. */
  const Intro := "Você é um assistente útil chamado 'Mestre dos PDFs' que responde às perguntas com base no contexto.\n            \nChat History:\n"

  /** The system message text between the chat history and the context. */
  const ContextHeading := "\n\nContext:\n"

  const DirectiveHead := "\n\nResponda à mensagem, caso seja uma pergunta, com base SOMENTE no contexto fornecido. Se o contexto ou o histórico do chat não contiver a resposta, diga \""

  const DirectiveTail := "\". Caso contrário, se não for uma pergunta, responda de forma conversacional e gentil.\nSeja conciso e direto.\nAo fim da mensagem, inclua uma seção de 'Referências', citando as fontes que você usou para responder, se possível.\n"

  /** One context block: the chunk's source, a `---` line, then its text. */
  function ContextBlock(chunk: SearchResult): string {
    SourceLabel + chunk.source + "\n---\n" + chunk.text
  }

  function ContextBlocks(context: seq<SearchResult>): (r: seq<string>)
    ensures |r| == |context|
    ensures forall i :: 0 <= i < |context| ==> r[i] == ContextBlock(context[i])
  {
    seq(|context|, i requires 0 <= i < |context| => ContextBlock(context[i]))
  }

  /** `context_text`: the blocks joined by blank lines. */
  function ContextText(context: seq<SearchResult>): string {
    Join("\n\n", ContextBlocks(context))
  }

  /** `chat_history_text`: the history entries joined by newlines. */
  function ChatHistoryText(history: seq<string>): string {
    Join("\n", history)
  }

  /** The system message content for a history text and a context text. */
  function SystemPrompt(historyText: string, contextText: string): string {
    Intro + historyText + ContextHeading + contextText + DirectiveHead + InsufficientInformation + DirectiveTail
  }

  /** `[system_message, human_message]` for a state. */
  function PromptMessages(state: RAGState): seq<Message> {
    [ SystemMessage(SystemPrompt(ChatHistoryText(state.chatHistory), ContextText(state.context))),
      HumanMessage(state.question) ]
  }

  /** The graph node: one model call, whose content becomes the state's `answer`. */
  function GenerateAnswerNode(llm: ChatModel, state: RAGState): Result<RAGState> {
    match llm(PromptMessages(state))
    case Err(e) => Err(e)
    case Ok(content) => Ok(state.(answer := content))
  }

  /** The outer `generate_answer`: the input state starts with an empty answer; the graph's answer is returned. */
  function GenerateAnswer(llm: ChatModel, question: string, chatHistory: seq<string>,
                          contextChunks: seq<SearchResult>): Result<string>
  {
    var input := RAGState(question, chatHistory, contextChunks, "");
    match GenerateAnswerNode(llm, input)
    case Err(e) => Err(e)
    case Ok(result) => Ok(result.answer)
  }

  // ---------------------------------------------------------------------
  // Properties
  // ---------------------------------------------------------------------

  /** No retrieved chunks give an empty context text. */
  lemma EmptyContextText()
    ensures ContextText([]) == ""
  {
  }

  /** A single chunk gives exactly its block. */
  lemma SingleContextText(chunk: SearchResult)
    ensures ContextText([chunk]) == "Fonte para o texto abaixo: " + chunk.source + "\n---\n" + chunk.text
  {
  }

  /** The context text keeps chunk order: two runs of chunks give their texts with one blank line between. */
  lemma ContextTextAppend(a: seq<SearchResult>, b: seq<SearchResult>)
    requires a != [] && b != []
    ensures ContextText(a + b) == ContextText(a) + "\n\n" + ContextText(b)
  {
    assert ContextBlocks(a + b) == ContextBlocks(a) + ContextBlocks(b);
    JoinAppend("\n\n", ContextBlocks(a), ContextBlocks(b));
  }

  /** The history text keeps entry order, one newline between runs of entries. */
  lemma ChatHistoryTextAppend(a: seq<string>, b: seq<string>)
    requires a != [] && b != []
    ensures ChatHistoryText(a + b) == ChatHistoryText(a) + "\n" + ChatHistoryText(b)
  {
    JoinAppend("\n", a, b);
  }

  /** Where the history, the context and the reply sit in any text laid out like the system message. */
  lemma PromptPartsAt(intro: string, historyText: string, heading: string, contextText: string, head: string,
                      reply: string, tail: string)
    ensures var p := intro + historyText + heading + contextText + head + reply + tail;
      var c := |intro| + |historyText| + |heading|;
      && OccursAt(p, historyText, |intro|)
      && OccursAt(p, contextText, c)
      && OccursAt(p, reply, c + |contextText| + |head|)
  {
    var p := intro + historyText + heading + contextText + head + reply + tail;
    var c := |intro| + |historyText| + |heading|;
    var d := c + |contextText| + |head|;
    assert p[|intro|..|intro| + |historyText|] == historyText;
    assert p[c..c + |contextText|] == contextText;
    assert p[d..d + |reply|] == reply;
  }

  /**
   * In the system message the history text comes first, the context text
   * after it, and the fixed insufficient-information reply is always there.
   */
  lemma SystemPromptLayout(historyText: string, contextText: string)
    ensures var p := SystemPrompt(historyText, contextText);
      var h := |Intro|;
      var c := h + |historyText| + |ContextHeading|;
      var d := c + |contextText| + |DirectiveHead|;
      && OccursAt(p, historyText, h)
      && h + |historyText| <= c
      && OccursAt(p, contextText, c)
      && OccursAt(p, InsufficientInformation, d)
  {
    PromptPartsAt(Intro, historyText, ContextHeading, contextText, DirectiveHead, InsufficientInformation,
                  DirectiveTail);
  }

  /**
   * `generate_answer` invokes the model once, on the system message and a
   * human message that is the question unchanged, and returns the reply
   * unchanged.
   */
  lemma GenerateAnswerIsOneCall(llm: ChatModel, question: string, chatHistory: seq<string>,
                                contextChunks: seq<SearchResult>)
    ensures var messages := [ SystemMessage(SystemPrompt(ChatHistoryText(chatHistory), ContextText(contextChunks))),
                              HumanMessage(question) ];
      GenerateAnswer(llm, question, chatHistory, contextChunks) == llm(messages)
  {
  }
}
