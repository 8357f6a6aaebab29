/**
 * `DocumentProcessor`: per-page text extraction with an OCR fallback,
 * chunking, and the positional attachment of embeddings to chunks.
 *
 * PyPDF2's `extract_text`, pdf2image's `convert_from_path`, pytesseract's
 * `image_to_string`, LangChain's `RecursiveCharacterTextSplitter` and the
 * OpenAI embedding calls are uninterpreted functions held by the processor.
 */
module DocumentProcessor {
  import opened Common

  /** A rendered page, as pixels. */
  type Image = seq<int>

  /** A page whose stripped native text is shorter than this is read by OCR instead. */
  const OcrThreshold := 50

  /** `not page_text or len(page_text.strip()) < 50`, where `None` stands for a page without a text layer. */
  predicate NeedsOcr(native: Option<string>) {
    native.None? || native.value == "" || |Strip(native.value)| < OcrThreshold
  }

  /** `[chunk["text"] for chunk in chunks]`. */
  function Texts(chunks: seq<Chunk>): (r: seq<string>)
    ensures |r| == |chunks|
    ensures forall i :: 0 <= i < |chunks| ==> r[i] == chunks[i].text
  {
    seq(|chunks|, i requires 0 <= i < |chunks| => chunks[i].text)
  }

  /** The chunks after `chunk["embedding"] = embeddings[i]` ran for every position both lists have. */
  function Attached(chunks: seq<Chunk>, embeddings: seq<Embedding>): (r: seq<Chunk>)
    ensures |r| == |chunks|
    ensures forall i :: 0 <= i < |chunks| ==>
      r[i].text == chunks[i].text && r[i].metadata == chunks[i].metadata
      && r[i].embedding == (if i < |embeddings| then Some(embeddings[i]) else chunks[i].embedding)
  {
    seq(|chunks|, i requires 0 <= i < |chunks| =>
      if i < |embeddings| then chunks[i].(embedding := Some(embeddings[i])) else chunks[i])
  }

  class DocumentProcessor {
    /** `[page.extract_text() for page in PdfReader(path).pages]`, or the reader's failure. */
    const readPages: Pdf -> Result<seq<Option<string>>>
    /** `convert_from_path(path, first_page, last_page)`. */
    const convertFromPath: (Pdf, nat, nat) -> seq<Image>
    /** `pytesseract.image_to_string(image)`. */
    const imageToString: Image -> string
    /** The page contents `text_splitter.create_documents([text])` produces. */
    const splitText: string -> seq<string>
    /** `self.embeddings.embed_documents(texts)`. */
    const embedDocuments: seq<string> -> Result<seq<Embedding>>
    /** `self.embeddings.embed_query(text)`. */
    const embedQuery: string -> Result<Embedding>

    constructor (readPages: Pdf -> Result<seq<Option<string>>>, convertFromPath: (Pdf, nat, nat) -> seq<Image>,
                 imageToString: Image -> string, splitText: string -> seq<string>,
                 embedDocuments: seq<string> -> Result<seq<Embedding>>, embedQuery: string -> Result<Embedding>)
      ensures this.readPages == readPages && this.convertFromPath == convertFromPath
      ensures this.imageToString == imageToString && this.splitText == splitText
      ensures this.embedDocuments == embedDocuments && this.embedQuery == embedQuery
    {
      this.readPages := readPages;
      this.convertFromPath := convertFromPath;
      this.imageToString := imageToString;
      this.splitText := splitText;
      this.embedDocuments := embedDocuments;
      this.embedQuery := embedQuery;
    }

    /**
     * `page_text` once the OCR branch for page `pageNumber` is done: the
     * native text, or the OCR of the last image rendered for that one page.
     */
    function PageText(file: Pdf, native: Option<string>, pageNumber: nat): Option<string> {
      if NeedsOcr(native) then
        var images := convertFromPath(file, pageNumber, pageNumber);
        if images == [] then native else Some(imageToString(images[|images| - 1]))
      else native
    }

    /** `text` after the first `n` pages; page `k` (0-based) is page number `k + 1`. */
    function ExtractedPages(file: Pdf, pages: seq<Option<string>>, n: nat): Result<string>
      requires n <= |pages|
    {
      if n == 0 then Ok("")
      else match ExtractedPages(file, pages, n - 1)
        case Err(e) => Err(e)
        case Ok(text) =>
          match PageText(file, pages[n - 1], n)
          case None => Err(TypeError)
          case Some(t) => Ok(text + t + "\n\n")
    }

    /** What `extract_text_from_pdf` returns or raises. */
    function ExtractedText(file: Pdf): Result<string> {
      match readPages(file)
      case Err(e) => Err(e)
      case Ok(pages) => ExtractedPages(file, pages, |pages|)
    }

    /** `chunk_text(text, metadata)`: one chunk per splitter piece, each with the same metadata. */
    function ChunkText(text: string, metadata: Metadata): (r: seq<Chunk>)
      ensures |r| == |splitText(text)|
      ensures forall i :: 0 <= i < |r| ==>
        r[i].text == splitText(text)[i] && r[i].metadata == metadata && r[i].embedding.None?
    {
      var pieces := splitText(text);
      seq(|pieces|, i requires 0 <= i < |pieces| => Chunk(pieces[i], metadata, None))
    }

    /** What `process_document(path, filename)` returns or raises. */
    function ProcessedChunks(file: Pdf, filename: string): Result<seq<Chunk>> {
      match ExtractedText(file)
      case Err(e) => Err(e)
      case Ok(text) =>
        var chunks := ChunkText(text, Metadata(filename));
        match embedDocuments(Texts(chunks))
        case Err(e) => Err(e)
        case Ok(embeddings) =>
          if |embeddings| < |chunks| then Err(IndexError) else Ok(Attached(chunks, embeddings))
    }

    method ExtractTextFromPdf(file: Pdf) returns (r: Result<string>)
      ensures r == ExtractedText(file)
    {
      var pdf := readPages(file);
      if pdf.Err? {
        return Err(pdf.error);
      }
      var pages := pdf.value;
      var text := "";
      var pageNumber := 1;
      var i := 0;
      while i < |pages|
        invariant 0 <= i <= |pages| && pageNumber == i + 1
        invariant ExtractedPages(file, pages, i) == Ok(text)
      {
        var pageText := pages[i];
        var needsOcr := pageText.None? || pageText.value == "" || |Strip(pageText.value)| < OcrThreshold;
        assert needsOcr == NeedsOcr(pages[i]);
        if needsOcr {
          var images := convertFromPath(file, pageNumber, pageNumber);
          var j := 0;
          while j < |images|
            invariant 0 <= j <= |images|
            invariant pageText == if j == 0 then pages[i] else Some(imageToString(images[j - 1]))
          {
            pageText := Some(imageToString(images[j]));
            j := j + 1;
          }
        }
        assert pageText == PageText(file, pages[i], pageNumber);
        if pageText.None? {
          // `None + "\n\n"`
          ErrorPersists(file, pages, i + 1, |pages|);
          return Err(TypeError);
        }
        text := text + pageText.value + "\n\n";
        pageNumber := pageNumber + 1;
        i := i + 1;
      }
      return Ok(text);
    }

    method EmbedChunks(chunks: array<Chunk>) returns (r: Result<array<Chunk>>)
      modifies chunks
      ensures match embedDocuments(Texts(old(chunks[..])))
        case Err(e) => r == Err(e) && chunks[..] == old(chunks[..])
        case Ok(embeddings) =>
          && chunks[..] == Attached(old(chunks[..]), embeddings)
          && (r.Ok? <==> chunks.Length <= |embeddings|)
          && (r.Ok? ==> r.value == chunks)
          && (r.Err? ==> r.error == IndexError)
    {
      var texts := Texts(chunks[..]);
      var result := embedDocuments(texts);
      if result.Err? {
        return Err(result.error);
      }
      var embeddings := result.value;
      var i := 0;
      while i < chunks.Length
        invariant 0 <= i <= chunks.Length && i <= |embeddings|
        invariant forall k :: 0 <= k < i ==> chunks[k] == old(chunks[k]).(embedding := Some(embeddings[k]))
        invariant forall k :: i <= k < chunks.Length ==> chunks[k] == old(chunks[k])
      {
        if i == |embeddings| {
          // `embeddings[i]` is past the end
          assert chunks[..] == Attached(old(chunks[..]), embeddings);
          return Err(IndexError);
        }
        chunks[i] := chunks[i].(embedding := Some(embeddings[i]));
        i := i + 1;
      }
      assert chunks[..] == Attached(old(chunks[..]), embeddings);
      r := Ok(chunks);
    }

    method ProcessDocument(file: Pdf, filename: string) returns (r: Result<array<Chunk>>)
      ensures r.Ok? <==> ProcessedChunks(file, filename).Ok?
      ensures r.Ok? ==> fresh(r.value) && r.value[..] == ProcessedChunks(file, filename).value
      ensures r.Err? ==> r.error == ProcessedChunks(file, filename).error
    {
      var text := ExtractTextFromPdf(file);
      if text.Err? {
        return Err(text.error);
      }
      var metadata := Metadata(filename);
      var pieces := ChunkText(text.value, metadata);
      var chunks := new Chunk[|pieces|](i requires 0 <= i < |pieces| => pieces[i]);
      assert chunks[..] == pieces;
      r := EmbedChunks(chunks);
    }

    // -------------------------------------------------------------------
    // Properties
    // -------------------------------------------------------------------

    /** Once a page fails, every longer prefix fails with the same error. */
    lemma {:induction false} ErrorPersists(file: Pdf, pages: seq<Option<string>>, n: nat, m: nat)
      requires n <= m <= |pages| && ExtractedPages(file, pages, n).Err?
      ensures ExtractedPages(file, pages, m) == ExtractedPages(file, pages, n)
      decreases m
    {
      if m > n { ErrorPersists(file, pages, n, m - 1); }
    }

    /** The extraction fails exactly when some page ends up with no text at all, and then with `TypeError`. */
    lemma {:induction false} ExtractionFailsIff(file: Pdf, pages: seq<Option<string>>, n: nat)
      requires n <= |pages|
      ensures ExtractedPages(file, pages, n).Err?
          <==> exists k :: 0 <= k < n && PageText(file, pages[k], k + 1).None?
      ensures ExtractedPages(file, pages, n).Err? ==> ExtractedPages(file, pages, n).error == TypeError
      decreases n
    {
      if n > 0 {
        ExtractionFailsIff(file, pages, n - 1);
        if PageText(file, pages[n - 1], n).None? {
          assert PageText(file, pages[(n - 1)], (n - 1) + 1).None?;
        }
      }
    }

    /**
     * The text of page `k` stands, followed by a blank line, right after the
     * text of the pages before it, and the text ends right after the last
     * page's blank line: the result is the in-order concatenation of
     * `page_text + "\n\n"`.
     */
    lemma {:induction false} PageInPlace(file: Pdf, pages: seq<Option<string>>, n: nat, k: nat)
      requires k < n <= |pages| && ExtractedPages(file, pages, n).Ok?
      ensures ExtractedPages(file, pages, k).Ok? && PageText(file, pages[k], k + 1).Some?
      ensures var before := ExtractedPages(file, pages, k).value;
              var page := PageText(file, pages[k], k + 1).value;
              var text := ExtractedPages(file, pages, n).value;
              |before| + |page| + 2 <= |text| && text[..|before| + |page| + 2] == before + page + "\n\n"
              && (k == n - 1 ==> |text| == |before| + |page| + 2)
      decreases n
    {
      ExtractedPagesStep(file, pages, n);
      if k < n - 1 {
        PageInPlace(file, pages, n - 1, k);
        var text' := ExtractedPages(file, pages, n - 1).value;
        var before := ExtractedPages(file, pages, k).value;
        var page := PageText(file, pages[k], k + 1).value;
        var text := ExtractedPages(file, pages, n).value;
        assert text[..|text'|] == text';
        assert text[..|before| + |page| + 2] == text'[..|before| + |page| + 2];
      } else {
        var text := ExtractedPages(file, pages, n).value;
        assert text[..|text|] == text;
      }
    }

    /** One more page: the prefix before it succeeded and the page had a text. */
    lemma ExtractedPagesStep(file: Pdf, pages: seq<Option<string>>, n: nat)
      requires 0 < n <= |pages| && ExtractedPages(file, pages, n).Ok?
      ensures ExtractedPages(file, pages, n - 1).Ok? && PageText(file, pages[n - 1], n).Some?
      ensures ExtractedPages(file, pages, n).value
           == ExtractedPages(file, pages, n - 1).value + PageText(file, pages[n - 1], n).value + "\n\n"
    {
    }

    /** A native text long enough is kept as it is, unstripped; OCR output replaces it only otherwise. */
    lemma NativeTextKept(file: Pdf, native: Option<string>, pageNumber: nat)
      ensures !NeedsOcr(native) ==> PageText(file, native, pageNumber) == native
      ensures PageText(file, native, pageNumber) != native ==>
        NeedsOcr(native) && convertFromPath(file, pageNumber, pageNumber) != []
    {
    }

    /**
     * On the OCR path only page `pageNumber` itself is rendered, and when
     * several images come back the text of the last one wins.
     */
    lemma OcrReadsLastImageOfPage(file: Pdf, native: Option<string>, pageNumber: nat)
      requires NeedsOcr(native) && convertFromPath(file, pageNumber, pageNumber) != []
      ensures var images := convertFromPath(file, pageNumber, pageNumber);
        PageText(file, native, pageNumber) == Some(imageToString(images[|images| - 1]))
    {
    }

    /** A document without pages yields the empty text. */
    lemma NoPagesNoText(file: Pdf)
      requires readPages(file) == Ok([])
      ensures ExtractedText(file) == Ok("")
    {
    }

    /**
     * `process_document` chunks the extracted text with metadata exactly
     * `{"source": filename}` and hands back one chunk per splitter piece,
     * each with the embedding of the same position.
     */
    lemma ProcessedChunksShape(file: Pdf, filename: string)
      requires ProcessedChunks(file, filename).Ok?
      ensures ExtractedText(file).Ok?
      ensures var text := ExtractedText(file).value;
              var chunks := ProcessedChunks(file, filename).value;
              && embedDocuments(Texts(ChunkText(text, Metadata(filename)))).Ok?
              && |chunks| == |splitText(text)|
              && AllEmbedded(chunks)
              && forall i :: 0 <= i < |chunks| ==>
                   && chunks[i].text == splitText(text)[i]
                   && chunks[i].metadata == Metadata(filename)
                   && chunks[i].embedding == Some(embedDocuments(Texts(ChunkText(text, Metadata(filename)))).value[i])
    {
    }
  }
}
