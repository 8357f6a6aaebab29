/**
 * The Streamlit client's session logic: the message log, the bounded chat
 * history sent with each question, and the two requests to the API. The
 * HTTP posts are functions from the request to the decoded JSON body, or
 * `None` when `requests` raised.
 */
module Ui {
  import opened Common
  import opened Api

  datatype Role = User | Assistant

  /** One entry `{"role", "content"}` of `st.session_state.messages`. */
  datatype ChatMessage = ChatMessage(role: Role, content: string)

  /** The most message contents sent as chat history: five questions and five answers. */
  const HistoryLimit := 10

  /** `requests.post(f"{API_URL}/question", json=...)` with `raise_for_status`, given session id, question and history. */
  type QuestionPost = (string, string, seq<string>) -> Option<QuestionResponse>

  /** `requests.post(f"{API_URL}/documents", files=...)` with `raise_for_status`. */
  type DocumentsPost = seq<UploadFile> -> Option<UploadResponse>

  /** The contents of the log, in log order. */
  function Contents(messages: seq<ChatMessage>): (r: seq<string>)
    ensures |r| == |messages|
    ensures forall i :: 0 <= i < |messages| ==> r[i] == messages[i].content
  {
    seq(|messages|, i requires 0 <= i < |messages| => messages[i].content)
  }

  /** The chat history `state_messages_to_list` returns: the contents of the last ten messages at most, in order. */
  function RecentHistory(messages: seq<ChatMessage>): (r: seq<string>)
    ensures |r| == if |messages| > HistoryLimit then HistoryLimit else |messages|
  {
    var contents := Contents(messages);
    if |contents| > HistoryLimit then contents[|contents| - HistoryLimit..] else contents
  }

  /** The log after `ask_question(question)`: the user turn, then the assistant turn when a reply came. */
  function AskedLog(messages: seq<ChatMessage>, question: string, reply: Option<QuestionResponse>): seq<ChatMessage> {
    messages + [ChatMessage(User, question)]
    + if reply.Some? then [ChatMessage(Assistant, reply.value.answer)] else []
  }

  /** `upload_documents(files)`: no request at all for an empty selection. */
  function UploadDocuments(files: seq<UploadFile>, post: DocumentsPost): Option<UploadResponse> {
    if files == [] then None else post(files)
  }

  class ChatSession {
    /** `st.session_state.messages`. */
    var messages: seq<ChatMessage>
    /** `st.session_state.session_id`. */
    var sessionId: string

    /** A fresh page: an empty log and the session id generated for it. */
    constructor (sessionId: string)
      ensures messages == [] && this.sessionId == sessionId
    {
      messages := [];
      this.sessionId := sessionId;
    }

    method StateMessagesToList() returns (r: seq<string>)
      ensures r == RecentHistory(messages)
    {
      var formatted: seq<string> := [];
      var k := 0;
      while k < |messages|
        invariant 0 <= k <= |messages|
        invariant formatted == Contents(messages[..k])
      {
        formatted := formatted + [messages[k].content];
        k := k + 1;
        assert Contents(messages[..k]) == Contents(messages[..k - 1]) + [messages[k - 1].content];
      }
      assert messages[..k] == messages;
      if |formatted| > HistoryLimit {
        formatted := formatted[|formatted| - HistoryLimit..];
      }
      r := formatted;
    }

    method AskQuestion(question: string, post: QuestionPost) returns (r: Option<QuestionResponse>)
      modifies this
      ensures r == post(old(sessionId), question, RecentHistory(old(messages) + [ChatMessage(User, question)]))
      ensures messages == AskedLog(old(messages), question, r)
      ensures sessionId == old(sessionId)
    {
      messages := messages + [ChatMessage(User, question)];
      var history := StateMessagesToList();
      var response := post(sessionId, question, history);
      if response.None? {
        // `st.error(...)`
        return None;
      }
      messages := messages + [ChatMessage(Assistant, response.value.answer)];
      r := response;
    }
  }

  // ---------------------------------------------------------------------
  // Properties
  // ---------------------------------------------------------------------

  /** With ten messages or fewer the whole log is sent; with more, exactly the last ten contents. */
  lemma RecentHistoryWindow(messages: seq<ChatMessage>)
    ensures |messages| <= HistoryLimit ==> RecentHistory(messages) == Contents(messages)
    ensures |messages| > HistoryLimit ==>
      RecentHistory(messages) == Contents(messages[|messages| - HistoryLimit..])
  {
    if |messages| > HistoryLimit {
      var tail := messages[|messages| - HistoryLimit..];
      assert forall k :: 0 <= k < HistoryLimit ==> RecentHistory(messages)[k] == Contents(tail)[k];
    }
  }

  /** Entry `k` of the history sent is the content of the matching message among the last ones, in log order. */
  lemma RecentHistoryElements(messages: seq<ChatMessage>)
    ensures var r := RecentHistory(messages);
      forall k :: 0 <= k < |r| ==> r[k] == messages[|messages| - |r| + k].content
  {
    var r := RecentHistory(messages);
    var all := Contents(messages);
    assert r == all[|all| - |r|..];
    forall k | 0 <= k < |r|
      ensures r[k] == messages[|messages| - |r| + k].content
    {
      assert r[k] == all[|all| - |r| + k];
    }
  }

  /** The history sent with a question ends with that question, and the turns before it keep their order. */
  lemma SentHistoryEndsWithQuestion(messages: seq<ChatMessage>, question: string)
    ensures var sent := RecentHistory(messages + [ChatMessage(User, question)]);
      && 1 <= |sent| <= HistoryLimit
      && sent[|sent| - 1] == question
      && sent[..|sent| - 1] == RecentHistory(messages)[|RecentHistory(messages)| - (|sent| - 1)..]
  {
    var log := messages + [ChatMessage(User, question)];
    var all := Contents(messages);
    assert Contents(log) == all + [question];
    var sent := RecentHistory(log);
    var before := RecentHistory(messages);
    var m := |sent| - 1;
    assert sent == (all + [question])[|all| + 1 - |sent|..];
    assert sent[..m] == all[|all| - m..];
    assert before == all[|all| - |before|..];
    assert before[|before| - m..] == all[|all| - m..];
  }

  /**
   * `ask_question` always records the question first; a failed request
   * leaves exactly that one new entry, a reply adds the answer after it.
   */
  lemma AskedLogGrowth(messages: seq<ChatMessage>, question: string, reply: Option<QuestionResponse>)
    ensures var log := AskedLog(messages, question, reply);
      && |log| == |messages| + (if reply.Some? then 2 else 1)
      && log[..|messages|] == messages
      && log[|messages|] == ChatMessage(User, question)
      && (reply.Some? ==> log[|messages| + 1] == ChatMessage(Assistant, reply.value.answer))
  {
  }

  /** An empty selection sends nothing: the result is `None` whatever the server would answer. */
  lemma EmptyUploadSendsNothing(post: DocumentsPost, other: DocumentsPost)
    ensures UploadDocuments([], post) == UploadDocuments([], other) == None
  {
  }

  /** A non-empty selection is posted as it stands, and the server's reply is returned. */
  lemma UploadPassesFilesThrough(files: seq<UploadFile>, post: DocumentsPost)
    requires files != []
    ensures UploadDocuments(files, post) == post(files)
  {
  }
}
