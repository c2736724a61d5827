/**
 * Knowledge-base ingestion: the text of an uploaded PDF or plain-text file
 * is cut into chunks of 1000 characters, each chunk becomes a vector record
 * with its embedding, and the records are written to the vector index in
 * batches of 50.
 *
 * PDF text extraction, the embedding model and the vector index are foreign
 * services: the extracted text is an input, the embedding is the parameter
 * `embed`, and the batches written are returned rather than sent.
 */
module RagIngest {
  import opened Wrappers
  import Text

  const ChunkSize := 1000
  const BatchSize := 50

  function Min(a: int, b: int): int {
    if a <= b then a else b
  }

  /** The parts joined back together, in order. */
  function Flatten<T>(parts: seq<seq<T>>): seq<T> {
    if parts == [] then [] else Flatten(parts[..|parts| - 1]) + parts[|parts| - 1]
  }

  /**
   * `s` cut into consecutive slices of `size` elements, the last one possibly
   * shorter; no slice for an empty `s`.
   */
  function Slices<T>(s: seq<T>, size: nat): (parts: seq<seq<T>>)
    requires size > 0
    ensures parts == [] <==> s == []
    ensures forall k :: 0 <= k < |parts| ==> 0 < |parts[k]| <= size
    ensures forall k :: 0 <= k < |parts| - 1 ==> |parts[k]| == size
    ensures s != [] ==> (|parts| - 1) * size < |s| <= |parts| * size
    decreases |s|
  {
    if s == [] then []
    else if |s| <= size then [s]
    else
      var rest := Slices(s[size..], size);
      assert (|rest| - 1) * size < |s| - size <= |rest| * size;
      [s[..size]] + rest
  }

  lemma {:induction false} FlattenPrepend<T>(x: seq<T>, parts: seq<seq<T>>)
    ensures Flatten([x] + parts) == x + Flatten(parts)
  {
    if parts != [] {
      var n := |parts| - 1;
      assert ([x] + parts)[..n + 1] == [x] + parts[..n];
      FlattenPrepend(x, parts[..n]);
    } else {
      assert Flatten([x]) == Flatten([]) + x;
    }
  }

  /** Joining the slices gives back the whole sequence. */
  lemma {:induction false} SlicesFlatten<T>(s: seq<T>, size: nat)
    requires size > 0
    ensures Flatten(Slices(s, size)) == s
    decreases |s|
  {
    if s != [] {
      if |s| <= size {
        assert Flatten([s]) == Flatten([]) + s;
      } else {
        SlicesFlatten(s[size..], size);
        FlattenPrepend(s[..size], Slices(s[size..], size));
        assert s == s[..size] + s[size..];
      }
    }
  }

  /** Slicing after a leading slice is slicing the rest: the step the slicing loop takes. */
  lemma SlicesStep<T>(s: seq<T>, size: nat, i: nat)
    requires size > 0 && i < |s|
    ensures Slices(s[i..], size) == [s[i..Min(i + size, |s|)]] + Slices(s[Min(i + size, |s|)..], size)
  {
    if |s| - i > size {
      assert s[i..][size..] == s[i + size..];
      assert s[i..][..size] == s[i..i + size];
    } else {
      assert s[Min(i + size, |s|)..] == [];
      assert s[i..Min(i + size, |s|)] == s[i..];
      assert Slices(s[i..], size) == [s[i..]];
    }
  }

  /** `for (i = 0; i < s.length; i += size) parts.push(s.slice(i, i + size))`. */
  method SliceEvery<T>(s: seq<T>, size: nat) returns (parts: seq<seq<T>>)
    requires size > 0
    ensures parts == Slices(s, size)
  {
    parts := [];
    var i := 0;
    while i < |s|
      invariant 0 <= i
      invariant parts + Slices(s[Min(i, |s|)..], size) == Slices(s, size)
      decreases |s| - i
    {
      SlicesStep(s, size, i);
      assert s[Min(i, |s|)..] == s[i..];
      parts := parts + [s[i..Min(i + size, |s|)]];
      i := i + size;
      assert Min(i, |s|) == Min(i - size + size, |s|);
    }
    assert s[Min(i, |s|)..] == [];
  }

  // ---------------------------------------------------------------------
  // Vector records
  // ---------------------------------------------------------------------

  /** One record of the vector index; `E` is the embedding. */
  datatype Vector<E> = Vector(id: string, values: E, text: string, filename: string, chunkIndex: nat)

  /** The id of chunk `i` of a file: `<filename>-<i>`. */
  function VectorId(filename: string, i: nat): string {
    filename + "-" + Text.NatToString(i)
  }

  /** Different chunks of the same file get different ids. */
  lemma {:induction false} VectorIdsDistinct(filename: string, i: nat, j: nat)
    requires i != j
    ensures VectorId(filename, i) != VectorId(filename, j)
  {
    var ti, tj := Text.NatToString(i), Text.NatToString(j);
    assert VectorId(filename, i) == filename + ['-'] + ti;
    assert VectorId(filename, j) == filename + ['-'] + tj;
    if filename + ['-'] + ti == filename + ['-'] + tj {
      Text.LastSeparatorSplit(filename, ti, filename, tj, '-');
      Text.NatToStringInjective(i, j);
    }
  }

  /** One record per chunk, in chunk order. */
  function VectorsFor<E>(filename: string, chunks: seq<string>, embed: string -> E): (vs: seq<Vector<E>>)
    ensures |vs| == |chunks|
    ensures forall i :: 0 <= i < |vs| ==>
      vs[i] == Vector(VectorId(filename, i), embed(chunks[i]), chunks[i], filename, i)
  {
    seq(|chunks|, i requires 0 <= i < |chunks| => Vector(VectorId(filename, i), embed(chunks[i]), chunks[i], filename, i))
  }

  /** Embed each chunk and record it with its id, text, file name and position. */
  method BuildVectors<E>(filename: string, chunks: seq<string>, embed: string -> E) returns (vectors: seq<Vector<E>>)
    ensures vectors == VectorsFor(filename, chunks, embed)
  {
    vectors := [];
    var i := 0;
    while i < |chunks|
      invariant 0 <= i <= |chunks|
      invariant vectors == VectorsFor(filename, chunks[..i], embed)
    {
      assert chunks[..i + 1][..i] == chunks[..i];
      vectors := vectors + [Vector(VectorId(filename, i), embed(chunks[i]), chunks[i], filename, i)];
      i := i + 1;
    }
    assert chunks[..i] == chunks;
  }

  /**
   * What an ingestion writes: the chunks put back together are the text, the
   * batches put back together are the records, one per chunk in order with
   * distinct ids, and no batch holds more than 50 records.
   */
  lemma IngestionPlan<E>(filename: string, text: string, embed: string -> E)
    ensures var chunks := Slices(text, ChunkSize);
      var vectors := VectorsFor(filename, chunks, embed);
      && Flatten(chunks) == text
      && Flatten(Slices(vectors, BatchSize)) == vectors
      && |vectors| == |chunks|
      && (forall i :: 0 <= i < |vectors| ==> vectors[i].text == chunks[i] && vectors[i].chunkIndex == i)
      && (forall i, j :: 0 <= i < j < |vectors| ==> vectors[i].id != vectors[j].id)
      && (forall b :: b in Slices(vectors, BatchSize) ==> 0 < |b| <= BatchSize)
  {
    var chunks := Slices(text, ChunkSize);
    var vectors := VectorsFor(filename, chunks, embed);
    SlicesFlatten(text, ChunkSize);
    SlicesFlatten(vectors, BatchSize);
    forall i, j | 0 <= i < j < |vectors| ensures vectors[i].id != vectors[j].id {
      VectorIdsDistinct(filename, i, j);
    }
  }

  // ---------------------------------------------------------------------
  // The route
  // ---------------------------------------------------------------------

  /** The three settings the route needs; `None` is an unset variable. */
  datatype Settings = Settings(embeddingKey: Option<string>, indexKey: Option<string>, indexName: Option<string>)

  predicate Set(v: Option<string>) {
    v.Some? && v.value != ""
  }

  /**
   * The uploaded file: its name, its media type, its bytes read as UTF-8
   * text, and the text the PDF reader extracts (`None` when it fails).
   */
  datatype UploadedFile = UploadedFile(name: string, mediaType: string, plainText: string, pdfText: Option<string>)

  datatype IngestResponse = Ingested(chunksProcessed: nat) | IngestRejected(error: string) | IngestFailed

  const PdfType := "application/pdf"
  const PlainTextType := "text/plain"
  const NoFileError := "No file uploaded"
  const UnsupportedTypeError := "Unsupported file type. Only PDF and TXT are supported."

  /** The text of a supported file: the PDF reader's output or the decoded bytes. */
  function FileText(f: UploadedFile): (r: Option<string>)
    ensures f.mediaType != PdfType && f.mediaType != PlainTextType ==> r.None?
    ensures f.mediaType == PlainTextType ==> r == Some(f.plainText)
    ensures f.mediaType == PdfType ==> r == f.pdfText
  {
    if f.mediaType == PdfType then f.pdfText
    else if f.mediaType == PlainTextType then Some(f.plainText)
    else None
  }

  /**
   * `POST /api/rag-ingest`: 500 when a setting is missing or the PDF cannot be
   * read, 400 without a file or for another type; otherwise the chunks are
   * embedded and written in batches (`upserts`, in the order they are sent),
   * and the answer reports the number of chunks.
   */
  method Ingest<E>(settings: Settings, file: Option<UploadedFile>, embed: string -> E)
    returns (resp: IngestResponse, upserts: seq<seq<Vector<E>>>)
    ensures !(Set(settings.embeddingKey) && Set(settings.indexKey) && Set(settings.indexName)) ==>
      resp == IngestFailed && upserts == []
    ensures Set(settings.embeddingKey) && Set(settings.indexKey) && Set(settings.indexName) ==>
      && (file.None? ==> resp == IngestRejected(NoFileError) && upserts == [])
      && (file.Some? && file.value.mediaType != PdfType && file.value.mediaType != PlainTextType ==>
            resp == IngestRejected(UnsupportedTypeError) && upserts == [])
      && (file.Some? && file.value.mediaType == PdfType && file.value.pdfText.None? ==> resp == IngestFailed && upserts == [])
      && (file.Some? && FileText(file.value).Some? ==>
            var chunks := Slices(FileText(file.value).value, ChunkSize);
            resp == Ingested(|chunks|) && upserts == Slices(VectorsFor(file.value.name, chunks, embed), BatchSize))
  {
    if !(Set(settings.embeddingKey) && Set(settings.indexKey) && Set(settings.indexName)) {
      return IngestFailed, [];
    }
    if file.None? {
      return IngestRejected(NoFileError), [];
    }
    var f := file.value;
    var text: string;
    if f.mediaType == PdfType {
      if f.pdfText.None? {
        return IngestFailed, [];
      }
      text := f.pdfText.value;
    } else if f.mediaType == PlainTextType {
      text := f.plainText;
    } else {
      return IngestRejected(UnsupportedTypeError), [];
    }
    var chunks := SliceEvery(text, ChunkSize);
    var vectors := BuildVectors(f.name, chunks, embed);
    upserts := SliceEvery(vectors, BatchSize);
    resp := Ingested(|chunks|);
  }
}
