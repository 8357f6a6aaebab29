/**
 * Values shared by the services: the failure-carrying result type, the
 * exceptions the code can raise, the chunk and search-result records, and
 * the few Python string operations the code relies on (`str.strip`,
 * `str.join`, `str.lower`, `str.endswith`).
 */
module Common {

  datatype Option<+T> = None | Some(value: T)

  /** The exceptions raised along the modelled paths. */
  datatype Error =
    | ExtractionError              // PdfReader could not read the file
    | TypeError                    // `None + "\n\n"` when a page yields no text at all
    | IndexError                   // `embeddings[i]` past the end of the embedding list
    | KeyError(key: string)        // `chunk["embedding"]` on a chunk that has none
    | ProviderError(service: string)  // the embedding or chat provider failed
    | HttpError(status: nat, detail: string)  // FastAPI's HTTPException

  /** A value, or the exception that aborted its computation. */
  datatype Result<+T> = Ok(value: T) | Err(error: Error)

  /** A PDF file, as the bytes stored at the path handed to the libraries. */
  type Pdf = seq<bv8>

  /** An embedding vector. Its components are only ever copied, never computed on. */
  type Embedding = seq<real>

  /** The chunk metadata: the splitter receives exactly `{"source": filename}`. */
  datatype Metadata = Metadata(source: string)

  /** A chunk dict: `text`, `metadata` and, once `embed_chunks` ran, `embedding`. */
  datatype Chunk = Chunk(text: string, metadata: Metadata, embedding: Option<Embedding>)

  /** Every chunk carries an embedding. */
  predicate AllEmbedded(chunks: seq<Chunk>) {
    forall i :: 0 <= i < |chunks| ==> chunks[i].embedding.Some?
  }

  /** One retrieved record `{text, source, score}`. */
  datatype SearchResult = SearchResult(text: string, source: string, score: real)

  // ---------------------------------------------------------------------
  // Python string operations
  // ---------------------------------------------------------------------

  /** The characters for which Python's `str.isspace` holds. */
  predicate IsSpace(c: char) {
    c == ' ' || ('\t' <= c <= '\r') || ('\U{1c}' <= c <= '\U{1f}')
    || c == '\U{85}' || c == '\U{a0}' || c == '\U{1680}' || ('\U{2000}' <= c <= '\U{200a}')
    || c == '\U{2028}' || c == '\U{2029}' || c == '\U{202f}' || c == '\U{205f}' || c == '\U{3000}'
  }

  /** `s.lstrip()`. */
  function TrimStart(s: string): string {
    if s != [] && IsSpace(s[0]) then TrimStart(s[1..]) else s
  }

  /** `s.rstrip()`. */
  function TrimEnd(s: string): string {
    if s != [] && IsSpace(s[|s| - 1]) then TrimEnd(s[..|s| - 1]) else s
  }

  /** `s.strip()`. */
  function Strip(s: string): string {
    TrimEnd(TrimStart(s))
  }

  /** `lstrip` removes exactly the leading whitespace: what is left is a suffix not starting with whitespace. */
  lemma {:induction false} TrimStartSpec(s: string)
    ensures var r := TrimStart(s);
      && |r| <= |s| && r == s[|s| - |r|..]
      && (forall k :: 0 <= k < |s| - |r| ==> IsSpace(s[k]))
      && (r == [] || !IsSpace(r[0]))
  {
    if s != [] && IsSpace(s[0]) {
      var t := s[1..];
      TrimStartSpec(t);
      var r := TrimStart(t);
      assert TrimStart(s) == r;
      assert r == t[|t| - |r|..] == s[|s| - |r|..];
      forall k | 0 <= k < |s| - |r|
        ensures IsSpace(s[k])
      {
        if k > 0 {
          assert s[k] == t[k - 1];
        }
      }
    }
  }

  /** `rstrip` removes exactly the trailing whitespace: what is left is a prefix not ending with whitespace. */
  lemma {:induction false} TrimEndSpec(s: string)
    ensures var r := TrimEnd(s);
      && |r| <= |s| && r == s[..|r|]
      && (forall k :: |r| <= k < |s| ==> IsSpace(s[k]))
      && (r == [] || !IsSpace(r[|r| - 1]))
  {
    if s != [] && IsSpace(s[|s| - 1]) {
      TrimEndSpec(s[..|s| - 1]);
    }
  }

  /** `strip` keeps a slice of `s` and drops only whitespace before it. */
  lemma StripIsSlice(s: string)
    ensures var r := Strip(s);
      var i := |s| - |TrimStart(s)|;
      && 0 <= i && i + |r| <= |s| && s[i..i + |r|] == r
      && (forall k :: 0 <= k < i ==> IsSpace(s[k]))
  {
    var t := TrimStart(s);
    var i := |s| - |t|;
    TrimStartSpec(s);
    assert forall k :: 0 <= k < i ==> IsSpace(s[k]);
    TrimEndSpec(t);
    var r := TrimEnd(t);
    assert t == s[i..];
    assert r == t[..|r|];
    assert s[i..i + |r|] == r;
  }

  /** What `strip` drops after the slice it keeps is whitespace too. */
  lemma StripDropsTrailingSpace(s: string, k: nat)
    requires |s| - |TrimStart(s)| + |Strip(s)| <= k < |s|
    ensures IsSpace(s[k])
  {
    var t := TrimStart(s);
    TrimStartSpec(s);
    TrimEndSpec(t);
    var i := |s| - |t|;
    assert t == s[i..];
    assert s[k] == t[k - i];
  }

  /** What `strip` keeps neither starts nor ends with whitespace. */
  lemma StripTrimmed(s: string)
    ensures var r := Strip(s);
      r == [] || (!IsSpace(r[0]) && !IsSpace(r[|r| - 1]))
  {
    var t := TrimStart(s);
    TrimStartSpec(s);
    TrimEndSpec(t);
    var r := TrimEnd(t);
    assert r != [] ==> r[0] == t[0];
  }

  /** `sep.join(parts)`. */
  function Join(sep: string, parts: seq<string>): string
    decreases |parts|
  {
    if |parts| == 0 then ""
    else if |parts| == 1 then parts[0]
    else Join(sep, parts[..|parts| - 1]) + sep + parts[|parts| - 1]
  }

  /** Sum of the lengths of `parts`. */
  function TotalLength(parts: seq<string>): nat
    decreases |parts|
  {
    if |parts| == 0 then 0 else TotalLength(parts[..|parts| - 1]) + |parts[|parts| - 1]|
  }

  /** Joining the parts of `a + b` is joining each side and putting one separator between them. */
  lemma {:induction false} JoinAppend(sep: string, a: seq<string>, b: seq<string>)
    requires a != [] && b != []
    ensures Join(sep, a + b) == Join(sep, a) + sep + Join(sep, b)
    decreases |b|
  {
    var ab := a + b;
    if |b| == 1 {
      assert ab[..|ab| - 1] == a;
    } else {
      var init := b[..|b| - 1];
      assert ab[..|ab| - 1] == a + init;
      JoinAppend(sep, a, init);
    }
  }

  /** The joined string holds every character of every part and one separator between neighbours. */
  lemma {:induction false} JoinLength(sep: string, parts: seq<string>)
    requires parts != []
    ensures |Join(sep, parts)| == TotalLength(parts) + |sep| * (|parts| - 1)
    decreases |parts|
  {
    if |parts| == 1 {
      assert parts[..0] == [];
    } else {
      JoinLength(sep, parts[..|parts| - 1]);
      assert |sep| * (|parts| - 1) == |sep| * (|parts| - 2) + |sep|;
    }
  }

  /** Joining no parts yields the empty string; joining one part yields it unchanged. */
  lemma JoinSmall(sep: string, parts: seq<string>)
    requires |parts| <= 1
    ensures Join(sep, parts) == if parts == [] then "" else parts[0]
  {
  }

  /** `s.lower()` on the letters A to Z; every other character is kept. */
  function Lower(s: string): (r: string)
    ensures |r| == |s|
  {
    seq(|s|, i requires 0 <= i < |s| => if 'A' <= s[i] <= 'Z' then (s[i] as int + 32) as char else s[i])
  }

  /** `part` appears in `s` starting at position `at`. */
  predicate OccursAt(s: string, part: string, at: int) {
    0 <= at && at + |part| <= |s| && s[at..at + |part|] == part
  }

  /** `s.endswith(suffix)`. */
  predicate EndsWith(s: string, suffix: string) {
    |suffix| <= |s| && s[|s| - |suffix|..] == suffix
  }
}
