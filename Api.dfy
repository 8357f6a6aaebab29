/**
 * The FastAPI endpoints: `POST /documents` filters the uploads by their
 * `.pdf` suffix, stores each in a temporary file, runs the pipeline on it
 * and counts documents and chunks; `POST /question` rejects an empty
 * question and otherwise passes the pipeline's answer through.
 */
module Api {
  import opened Common
  import opened VectorStore
  import opened RagPipeline

  /** An uploaded file: its client-side name and its bytes. */
  datatype UploadFile = UploadFile(filename: string, content: Pdf)

  /** The counters `documents_indexed` and `total_chunks`. */
  datatype Counts = Counts(documentsIndexed: nat, totalChunks: nat)

  /** The JSON body of a successful `POST /documents`. */
  datatype UploadResponse = UploadResponse(message: string, documentsIndexed: nat, totalChunks: nat)

  /** `QuestionRequest`; the defaults `"default"` and `[]` are the caller's to fill in. */
  datatype QuestionRequest = QuestionRequest(sessionId: string, question: string, chatHistory: seq<string>)

  /** The JSON body of a successful `POST /question`. */
  datatype QuestionResponse = QuestionResponse(answer: string, contextChunks: seq<SearchResult>)

  const NoFiles := HttpError(400, "Nenhum PDF foi providenciado.")
  const NoValidPdf := HttpError(400, "Nenhum PDF válido foi providenciado")
  const EmptyQuestion := HttpError(400, "O campo 'question' não pode estar vazio.")
  const UploadSucceeded := "Documentos processados com sucesso"

  /** `filename.lower().endswith(".pdf")`. */
  predicate IsPdfName(filename: string) {
    EndsWith(Lower(filename), ".pdf")
  }

  /** The suffix test ignores case: any spelling of `.pdf` in upper or lower case letters passes. */
  lemma IsPdfNameIff(filename: string)
    ensures IsPdfName(filename) <==>
      var n := |filename|;
      && n >= 4
      && filename[n - 4] == '.'
      && filename[n - 3] in "pP" && filename[n - 2] in "dD" && filename[n - 1] in "fF"
  {
    var n := |filename|;
    if n >= 4 {
      var l := Lower(filename);
      assert l[n - 4..] == [l[n - 4], l[n - 3], l[n - 2], l[n - 1]];
    }
  }

  /** The uploads that pass the suffix test, in upload order. */
  function PdfFiles(files: seq<UploadFile>): (r: seq<UploadFile>)
    ensures |r| <= |files|
    decreases |files|
  {
    if files == [] then []
    else
      var init := PdfFiles(files[..|files| - 1]);
      var last := files[|files| - 1];
      if IsPdfName(last.filename) then init + [last] else init
  }

  /** The positions of the uploads that pass the suffix test. */
  ghost function PdfPositions(files: seq<UploadFile>): set<nat> {
    set i: nat | i < |files| && IsPdfName(files[i].filename)
  }

  /** One more upload adds its position exactly when it passes. */
  lemma PdfPositionsStep(files: seq<UploadFile>)
    requires files != []
    ensures var n := |files|;
      PdfPositions(files)
      == PdfPositions(files[..n - 1]) + if IsPdfName(files[n - 1].filename) then {n - 1} else {}
  {
    var init := files[..|files| - 1];
    assert forall i: nat :: i < |init| ==> init[i] == files[i];
  }

  /** One entry per upload that passes the suffix test. */
  lemma {:induction false} PdfFilesCount(files: seq<UploadFile>)
    ensures |PdfFiles(files)| == |PdfPositions(files)|
    decreases |files|
  {
    if files != [] {
      var init := files[..|files| - 1];
      PdfFilesCount(init);
      PdfPositionsStep(files);
      assert |files| - 1 !in PdfPositions(init);
    }
  }

  /** Every entry passes the suffix test. */
  lemma {:induction false} PdfFilesAllPass(files: seq<UploadFile>)
    ensures forall j :: 0 <= j < |PdfFiles(files)| ==> IsPdfName(PdfFiles(files)[j].filename)
    decreases |files|
  {
    if files != [] {
      var init := files[..|files| - 1];
      PdfFilesAllPass(init);
      var r0 := PdfFiles(init);
      forall j | 0 <= j < |PdfFiles(files)|
        ensures IsPdfName(PdfFiles(files)[j].filename)
      {
        if j < |r0| {
          assert PdfFiles(files)[j] == r0[j];
        }
      }
    }
  }

  /** Every entry is one of the uploads. */
  lemma {:induction false} PdfFilesFromUploads(files: seq<UploadFile>)
    ensures forall j :: 0 <= j < |PdfFiles(files)| ==> PdfFiles(files)[j] in files
    decreases |files|
  {
    if files != [] {
      var init := files[..|files| - 1];
      PdfFilesFromUploads(init);
      var r := PdfFiles(files);
      var r0 := PdfFiles(init);
      forall j | 0 <= j < |r|
        ensures r[j] in files
      {
        if j < |r0| {
          assert r[j] == r0[j] && r0[j] in init;
        }
      }
    }
  }

  /** One more upload is appended exactly when it passes. */
  lemma PdfFilesStep(files: seq<UploadFile>)
    requires files != []
    ensures var n := |files|;
      PdfFiles(files) == PdfFiles(files[..n - 1]) + if IsPdfName(files[n - 1].filename) then [files[n - 1]] else []
  {
  }

  /**
   * Every upload that passes the suffix test is kept, in upload order: the
   * one at position `i` comes right after those kept from before it.
   */
  lemma {:induction false} PdfFilesKeepsInOrder(files: seq<UploadFile>, i: nat)
    requires i < |files| && IsPdfName(files[i].filename)
    ensures |PdfFiles(files[..i])| < |PdfFiles(files)|
    ensures PdfFiles(files)[|PdfFiles(files[..i])|] == files[i]
    decreases |files|
  {
    var n := |files|;
    var init := files[..n - 1];
    PdfFilesStep(files);
    var r0 := PdfFiles(init);
    if i < n - 1 {
      assert init[..i] == files[..i] && init[i] == files[i];
      PdfFilesKeepsInOrder(init, i);
      var k := |PdfFiles(files[..i])|;
      assert PdfFiles(files)[k] == r0[k];
    } else {
      assert files[..i] == init;
    }
  }

  class Api {
    const pipeline: RAGPipeline

    /** The temporary files on disk, by path. */
    var tempDir: map<nat, Pdf>
    /** The next path `NamedTemporaryFile` hands out. */
    var nextTemp: nat

    /** Every file on disk has a path handed out before. */
    predicate Valid()
      reads this
    {
      forall path :: path in tempDir ==> path < nextTemp
    }

    constructor (pipeline: RAGPipeline)
      ensures this.pipeline == pipeline && tempDir == map[] && Valid()
    {
      this.pipeline := pipeline;
      tempDir := map[];
      nextTemp := 0;
    }

    /** The chunk count of one `.pdf` upload and the store state after it, or the exception it raised. */
    function IndexOne(st: StoreState, file: UploadFile, sessionId: string): (r: (Result<nat>, StoreState))
      requires st.Valid()
      ensures r.1.Valid()
    {
      var (processed, st') := pipeline.ProcessOutcome(st, file.content, file.filename, sessionId);
      match processed
      case Err(e) => (Err(e), st')
      case Ok(chunks) => (Ok(|chunks|), st')
    }

    /** The counters and the store state after the loop's first `n` turns, or the exception that left it. */
    function IndexFiles(st: StoreState, files: seq<UploadFile>, n: nat, sessionId: string)
      : (r: (Result<Counts>, StoreState))
      requires st.Valid() && n <= |files|
      ensures r.1.Valid()
      decreases n, 1
    {
      if n == 0 then (Ok(Counts(0, 0)), st) else IndexTurn(st, files, n, sessionId)
    }

    /**
     * Turn `n` of the loop, on `files[n - 1]`: a file after an exception is
     * never reached, a non-`.pdf` file is skipped, and a `.pdf` file adds
     * one document and its chunk count.
     */
    function IndexTurn(st: StoreState, files: seq<UploadFile>, n: nat, sessionId: string)
      : (r: (Result<Counts>, StoreState))
      requires st.Valid() && 0 < n <= |files|
      ensures r.1.Valid()
      decreases n, 0
    {
      var (counts, current) := IndexFiles(st, files, n - 1, sessionId);
      var file := files[n - 1];
      if counts.Err? || !IsPdfName(file.filename) then (counts, current)
      else
        var (indexed, st') := IndexOne(current, file, sessionId);
        match indexed
        case Err(e) => (Err(e), st')
        case Ok(k) => (Ok(Counts(counts.value.documentsIndexed + 1, counts.value.totalChunks + k)), st')
    }

    /** What `upload_documents(files, sessionId)` returns or raises, and the store state it leaves. */
    function UploadOutcome(st: StoreState, files: seq<UploadFile>, sessionId: string)
      : (r: (Result<UploadResponse>, StoreState))
      requires st.Valid()
      ensures r.1.Valid()
    {
      if files == [] then (Err(NoFiles), st)
      else
        var (counts, st') := IndexFiles(st, files, |files|, sessionId);
        match counts
        case Err(e) => (Err(e), st')
        case Ok(c) =>
          if c.documentsIndexed == 0 then (Err(NoValidPdf), st')
          else (Ok(UploadResponse(UploadSucceeded, c.documentsIndexed, c.totalChunks)), st')
    }

    /** What `ask_question(request)` returns or raises, and the store state it leaves. */
    function AskOutcome(st: StoreState, request: QuestionRequest): (r: (Result<QuestionResponse>, StoreState))
      requires st.Valid()
      ensures r.1.Valid()
    {
      if request.question == "" then (Err(EmptyQuestion), st)
      else
        var (answered, st') := pipeline.AnswerOutcome(st, request.question, request.chatHistory, request.sessionId);
        match answered
        case Err(e) => (Err(e), st')
        case Ok(a) => (Ok(QuestionResponse(a.answer, a.contextChunks)), st')
    }

    /** `NamedTemporaryFile(delete=False, suffix=".pdf")` filled with `content`. */
    method CreateTempFile(content: Pdf) returns (path: nat)
      requires Valid()
      modifies this
      ensures Valid() && path !in old(tempDir) && tempDir == old(tempDir)[path := content]
    {
      path := nextTemp;
      tempDir := tempDir[path := content];
      nextTemp := nextTemp + 1;
    }

    /** `os.unlink(path)`. */
    method RemoveTempFile(path: nat)
      requires Valid()
      modifies this
      ensures Valid() && tempDir == old(tempDir) - {path}
    {
      tempDir := tempDir - {path};
    }

    /**
     * The body of the loop for a `.pdf` upload: the bytes go to a new
     * temporary file, the pipeline processes that file, and the file is
     * removed whether or not processing raised.
     */
    method IndexUpload(file: UploadFile, sessionId: string) returns (r: Result<nat>)
      requires Valid() && pipeline.vectorStore.Valid()
      modifies this, pipeline.vectorStore
      ensures Valid() && pipeline.vectorStore.Valid() && tempDir == old(tempDir)
      ensures (r, pipeline.vectorStore.State()) == IndexOne(old(pipeline.vectorStore.State()), file, sessionId)
    {
      var tempPath := CreateTempFile(file.content);
      var chunks := pipeline.ProcessDocument(tempDir[tempPath], file.filename, sessionId);
      // the `finally` clause
      RemoveTempFile(tempPath);
      if chunks.Err? {
        return Err(chunks.error);
      }
      r := Ok(chunks.value.Length);
    }

    /**
     * The loop of `upload_documents`: each `.pdf` upload in turn is indexed
     * and counted; the first exception leaves the loop and is passed on.
     */
    method IndexBatch(files: seq<UploadFile>, sessionId: string) returns (r: Result<Counts>)
      requires Valid() && pipeline.vectorStore.Valid()
      modifies this, pipeline.vectorStore
      ensures Valid() && pipeline.vectorStore.Valid() && tempDir == old(tempDir)
      ensures (r, pipeline.vectorStore.State()) == IndexFiles(old(pipeline.vectorStore.State()), files, |files|, sessionId)
    {
      ghost var st0 := pipeline.vectorStore.State();
      var totalChunks: nat := 0;
      var documentsIndexed: nat := 0;
      var i := 0;
      while i < |files|
        invariant 0 <= i <= |files|
        invariant Valid() && pipeline.vectorStore.Valid() && tempDir == old(tempDir)
        invariant IndexFiles(st0, files, i, sessionId)
                  == (Ok(Counts(documentsIndexed, totalChunks)), pipeline.vectorStore.State())
      {
        var file := files[i];
        LoopTurn(this, st0, files, i, sessionId);
        if !IsPdfName(file.filename) {
          i := i + 1;
          continue;
        }
        var chunks := IndexUpload(file, sessionId);
        if chunks.Err? {
          AbortIgnoresRest(this, st0, files, i + 1, |files|, sessionId);
          return Err(chunks.error);
        }
        totalChunks := totalChunks + chunks.value;
        documentsIndexed := documentsIndexed + 1;
        i := i + 1;
      }
      r := Ok(Counts(documentsIndexed, totalChunks));
    }

    method UploadDocuments(files: seq<UploadFile>, sessionId: string) returns (r: Result<UploadResponse>)
      requires Valid() && pipeline.vectorStore.Valid()
      modifies this, pipeline.vectorStore
      ensures Valid() && pipeline.vectorStore.Valid()
      ensures (r, pipeline.vectorStore.State()) == UploadOutcome(old(pipeline.vectorStore.State()), files, sessionId)
      // every temporary file is removed again, also when a document aborts the batch
      ensures tempDir == old(tempDir)
    {
      if files == [] {
        return Err(NoFiles);
      }
      var counts := IndexBatch(files, sessionId);
      if counts.Err? {
        return Err(counts.error);
      }
      if counts.value.documentsIndexed == 0 {
        return Err(NoValidPdf);
      }
      r := Ok(UploadResponse(UploadSucceeded, counts.value.documentsIndexed, counts.value.totalChunks));
    }

    method AskQuestion(request: QuestionRequest) returns (r: Result<QuestionResponse>)
      requires pipeline.vectorStore.Valid()
      modifies pipeline.vectorStore
      ensures pipeline.vectorStore.Valid()
      ensures (r, pipeline.vectorStore.State()) == AskOutcome(old(pipeline.vectorStore.State()), request)
    {
      if request.question == "" {
        return Err(EmptyQuestion);
      }
      var answered := pipeline.AnswerQuestion(request.question, request.chatHistory, request.sessionId);
      if answered.Err? {
        return Err(answered.error);
      }
      r := Ok(QuestionResponse(answered.value.answer, answered.value.contextChunks));
    }
  }

  // ---------------------------------------------------------------------
  // Properties
  // ---------------------------------------------------------------------

  /** Turn `i + 1` spelled out in terms of the first `i` turns. */
  lemma LoopTurn(api: Api, st: StoreState, files: seq<UploadFile>, i: nat, sessionId: string)
    requires st.Valid() && i < |files|
    ensures var (counts, current) := api.IndexFiles(st, files, i, sessionId);
      var file := files[i];
      api.IndexFiles(st, files, i + 1, sessionId)
      == if counts.Err? || !IsPdfName(file.filename) then (counts, current)
         else
           var (indexed, st') := api.IndexOne(current, file, sessionId);
           if indexed.Err? then (Err(indexed.error), st')
           else (Ok(Counts(counts.value.documentsIndexed + 1, counts.value.totalChunks + indexed.value)), st')
  {
    assert api.IndexFiles(st, files, i + 1, sessionId) == api.IndexTurn(st, files, i + 1, sessionId);
  }

  /** Once a file raised, the files after it are never looked at. */
  lemma {:induction false} AbortIgnoresRest(api: Api, st: StoreState, files: seq<UploadFile>, n: nat, m: nat,
                                            sessionId: string)
    requires st.Valid() && n <= m <= |files| && api.IndexFiles(st, files, n, sessionId).0.Err?
    ensures api.IndexFiles(st, files, m, sessionId) == api.IndexFiles(st, files, n, sessionId)
    decreases m
  {
    if m > n {
      AbortIgnoresRest(api, st, files, n, m - 1, sessionId);
    }
  }

  /** The first `n` turns depend on the first `n` files only. */
  lemma {:induction false} IndexFilesPrefix(api: Api, st: StoreState, xs: seq<UploadFile>, ys: seq<UploadFile>, n: nat,
                                            sessionId: string)
    requires st.Valid() && n <= |xs| && n <= |ys| && xs[..n] == ys[..n]
    ensures api.IndexFiles(st, xs, n, sessionId) == api.IndexFiles(st, ys, n, sessionId)
    decreases n
  {
    if n > 0 {
      assert xs[n - 1] == xs[..n][n - 1] && ys[n - 1] == ys[..n][n - 1];
      assert xs[..n - 1] == xs[..n][..n - 1] && ys[..n - 1] == ys[..n][..n - 1];
      IndexFilesPrefix(api, st, xs, ys, n - 1, sessionId);
    }
  }

  lemma {:induction false} NonPdfSkippedAt(api: Api, st: StoreState, before: seq<UploadFile>, file: UploadFile,
                                           after: seq<UploadFile>, k: nat, sessionId: string)
    requires st.Valid() && !IsPdfName(file.filename) && k <= |after|
    ensures api.IndexFiles(st, before + [file] + after, |before| + 1 + k, sessionId)
            == api.IndexFiles(st, before + after, |before| + k, sessionId)
    decreases k
  {
    var whole := before + [file] + after;
    var without := before + after;
    if k == 0 {
      assert whole[..|before|] == before == without[..|before|];
      IndexFilesPrefix(api, st, whole, without, |before|, sessionId);
    } else {
      assert whole[|before| + k] == after[k - 1] == without[|before| + k - 1];
      NonPdfSkippedAt(api, st, before, file, after, k - 1, sessionId);
    }
  }

  /** A file failing the suffix test changes nothing, wherever it sits in the batch. */
  lemma NonPdfSkipped(api: Api, st: StoreState, before: seq<UploadFile>, file: UploadFile,
                      after: seq<UploadFile>, sessionId: string)
    requires st.Valid() && !IsPdfName(file.filename)
    ensures var whole := before + [file] + after;
      api.IndexFiles(st, whole, |whole|, sessionId)
      == api.IndexFiles(st, before + after, |before + after|, sessionId)
  {
    NonPdfSkippedAt(api, st, before, file, after, |after|, sessionId);
  }

  /** Every upload that passes the suffix test is processed without an exception. */
  ghost predicate AllPdfsProcess(api: Api, files: seq<UploadFile>) {
    forall i :: 0 <= i < |files| && IsPdfName(files[i].filename) ==>
      api.pipeline.documentProcessor.ProcessedChunks(files[i].content, files[i].filename).Ok?
  }

  /** The chunk counts of the uploads that pass the suffix test and are processed, summed. */
  ghost function ChunkTotal(api: Api, files: seq<UploadFile>): nat
    decreases |files|
  {
    if files == [] then 0
    else
      var last := files[|files| - 1];
      var processed := api.pipeline.documentProcessor.ProcessedChunks(last.content, last.filename);
      ChunkTotal(api, files[..|files| - 1]) + if IsPdfName(last.filename) && processed.Ok? then |processed.value| else 0
  }

  /**
   * The loop gets through the first `n` files exactly when every `.pdf`
   * upload among them is processed; it then counts one document per
   * `.pdf` upload and the sum of their chunk counts.
   */
  lemma {:induction false} IndexCounts(api: Api, st: StoreState, files: seq<UploadFile>, n: nat, sessionId: string)
    requires st.Valid() && n <= |files|
    ensures var (counts, _) := api.IndexFiles(st, files, n, sessionId);
      && (counts.Ok? <==> AllPdfsProcess(api, files[..n]))
      && (counts.Ok? ==> counts.value == Counts(|PdfFiles(files[..n])|, ChunkTotal(api, files[..n])))
    decreases n
  {
    if n > 0 {
      IndexCounts(api, st, files, n - 1, sessionId);
      assert files[..n][..n - 1] == files[..n - 1];
      AllPdfsProcessStep(api, files[..n]);
      var (counts, st1) := api.IndexFiles(st, files, n - 1, sessionId);
      if counts.Ok? && IsPdfName(files[n - 1].filename) {
        IndexOneCount(api, st1, files[n - 1], sessionId);
      }
    }
  }

  /** On the whole batch: all `.pdf` uploads processed, one document each, their chunk counts summed. */
  lemma BatchCounts(api: Api, st: StoreState, files: seq<UploadFile>, sessionId: string)
    requires st.Valid()
    ensures var (counts, _) := api.IndexFiles(st, files, |files|, sessionId);
      && (counts.Ok? <==> AllPdfsProcess(api, files))
      && (counts.Ok? ==> counts.value == Counts(|PdfFiles(files)|, ChunkTotal(api, files)))
  {
    IndexCounts(api, st, files, |files|, sessionId);
    assert files[..|files|] == files;
  }

  /** The `.pdf` uploads of a batch all process exactly when those before the last do and the last does. */
  lemma AllPdfsProcessStep(api: Api, files: seq<UploadFile>)
    requires files != []
    ensures var last := files[|files| - 1];
      AllPdfsProcess(api, files) <==>
        && AllPdfsProcess(api, files[..|files| - 1])
        && (IsPdfName(last.filename) ==> api.pipeline.documentProcessor.ProcessedChunks(last.content, last.filename).Ok?)
  {
    var init := files[..|files| - 1];
    assert forall i :: 0 <= i < |init| ==> init[i] == files[i];
  }

  /**
   * One `.pdf` upload is counted exactly when the processor handles it,
   * and then with the processor's number of chunks; otherwise the
   * processor's exception is passed on and the store is left as it was.
   */
  lemma IndexOneCount(api: Api, st: StoreState, file: UploadFile, sessionId: string)
    requires st.Valid()
    ensures var (indexed, st') := api.IndexOne(st, file, sessionId);
      var processed := api.pipeline.documentProcessor.ProcessedChunks(file.content, file.filename);
      && (indexed.Ok? <==> processed.Ok?)
      && (indexed.Ok? ==> indexed.value == |processed.value|)
      && (indexed.Err? ==> indexed.error == processed.error && st' == st)
  {
    if api.pipeline.documentProcessor.ProcessedChunks(file.content, file.filename).Ok? {
      ProcessInsertsProcessorChunks(api.pipeline, st, file.content, file.filename, sessionId);
    } else {
      ProcessFailureInsertsNothing(api.pipeline, st, file.content, file.filename, sessionId);
    }
  }

  /** `documents_indexed` never exceeds the number of uploads. */
  lemma IndexedAtMostFiles(api: Api, st: StoreState, files: seq<UploadFile>, sessionId: string)
    requires st.Valid() && api.UploadOutcome(st, files, sessionId).0.Ok?
    ensures 0 < api.UploadOutcome(st, files, sessionId).0.value.documentsIndexed <= |files|
  {
    BatchCounts(api, st, files, sessionId);
  }

  lemma {:induction false} NoPdfIndexesNothing(api: Api, st: StoreState, files: seq<UploadFile>, n: nat,
                                               sessionId: string)
    requires st.Valid() && n <= |files|
    requires forall i :: 0 <= i < |files| ==> !IsPdfName(files[i].filename)
    ensures api.IndexFiles(st, files, n, sessionId) == (Ok(Counts(0, 0)), st)
    decreases n
  {
    if n > 0 {
      NoPdfIndexesNothing(api, st, files, n - 1, sessionId);
    }
  }

  /**
   * A batch with no `.pdf` upload is rejected with 400 without touching
   * the store; an empty batch is rejected with 400 before the loop.
   */
  lemma NoPdfRejected(api: Api, st: StoreState, files: seq<UploadFile>, sessionId: string)
    requires st.Valid()
    requires forall i :: 0 <= i < |files| ==> !IsPdfName(files[i].filename)
    ensures api.UploadOutcome(st, files, sessionId) == (Err(if files == [] then NoFiles else NoValidPdf), st)
  {
    NoPdfIndexesNothing(api, st, files, |files|, sessionId);
  }

  /**
   * An empty question is rejected with 400 before the pipeline runs;
   * otherwise the response carries the pipeline's answer and context
   * chunks unchanged.
   */
  lemma AskPassesThrough(api: Api, st: StoreState, request: QuestionRequest)
    requires st.Valid()
    ensures request.question == "" ==> api.AskOutcome(st, request) == (Err(EmptyQuestion), st)
    ensures request.question != "" ==>
      var (answered, st') := api.pipeline.AnswerOutcome(st, request.question, request.chatHistory, request.sessionId);
      var (r, st'') := api.AskOutcome(st, request);
      && st'' == st'
      && (r.Ok? <==> answered.Ok?)
      && (r.Ok? ==> r.value.answer == answered.value.answer && r.value.contextChunks == answered.value.contextChunks)
  {
  }
}
