/** Presentation-friendly chunks: the content-type classifier, key-point
    extraction, the slide-structure suggestion, the chunk records and the
    entry point `extract_and_chunk_content`. */
module PdfPresentation {
  import opened Wrappers
  import opened Text
  import PdfStructure
  import opened PdfChunking

  // ---------------------------------------------------------------------------
  // Content type
  // ---------------------------------------------------------------------------

  datatype ContentType = Table | ListItems | FigureReference | LongText | Paragraph

  /** The name the record carries. */
  function ContentTypeName(t: ContentType): string
  {
    match t
    case Table => "table"
    case ListItems => "list"
    case FigureReference => "figure_reference"
    case LongText => "long_text"
    case Paragraph => "paragraph"
  }

  const FigureWords: seq<string> := ["hình", "biểu đồ", "figure", "chart"]

  /** `any(w in s for w in words)` */
  predicate AnyContained(s: string, words: seq<string>)
  {
    exists i :: 0 <= i < |words| && Contains(s, words[i])
  }

  /** `_analyze_content_type`: the first test that holds decides. */
  function AnalyzeContentType(content: string): ContentType
  {
    if Contains(content, "|") && Count(content, "|") > 5 then Table
    else if Count(content, "\n-") > 2 || Count(content, "\n•") > 2 then ListItems
    else if AnyContained(Lower(content), FigureWords) then FigureReference
    else if |Split(content, "\n")| > 10 then LongText
    else Paragraph
  }

  /** The membership test before the count is redundant; "long text" means at
      least ten line breaks. */
  lemma ContentTypeCounts(content: string)
    ensures AnalyzeContentType(content) == Table <==> Count(content, "|") > 5
    ensures AnalyzeContentType(content) == LongText <==>
      (Count(content, "|") <= 5 && Count(content, "\n-") <= 2 && Count(content, "\n•") <= 2
       && !AnyContained(Lower(content), FigureWords) && Count(content, "\n") >= 10)
  {
    if Count(content, "|") > 5 {
      CountPositiveContains(content, "|");
    }
    SplitLength(content, "\n");
  }

  // ---------------------------------------------------------------------------
  // Slide structure
  // ---------------------------------------------------------------------------

  datatype SlideStructure = SlideStructure(kind: string, layout: string, titleSuggestion: string, suggestion: Option<string>)

  /** `_suggest_slide_structure` */
  function SuggestSlideStructure(t: ContentType): (r: SlideStructure)
  {
    match t
    case Table => SlideStructure("data_slide", "table", "Dữ liệu và Thống kê", None)
    case ListItems => SlideStructure("bullet_slide", "bullet_points", "Các Điểm Chính", None)
    case LongText => SlideStructure("content_slide", "text_heavy", "Nội dung Chi tiết", Some("Nên chia thành nhiều slide"))
    case _ => SlideStructure("standard_slide", "title_content", "Thông tin", None)
  }

  /** Figure references get no slide of their own kind: they share the
      standard slide with plain paragraphs, and only long text carries a
      splitting suggestion. */
  lemma StructureKinds(t: ContentType)
    ensures SuggestSlideStructure(FigureReference) == SuggestSlideStructure(Paragraph)
    ensures SuggestSlideStructure(t).suggestion.Some? <==> t == LongText
    ensures t != FigureReference && t != Paragraph ==> SuggestSlideStructure(t) != SuggestSlideStructure(Paragraph)
  {
  }

  // ---------------------------------------------------------------------------
  // Key points
  // ---------------------------------------------------------------------------

  const ImportanceWords: seq<string> := ["quan trọng", "chính", "cần", "phải", "important", "key", "main", "essential"]

  const OrdinalOpeners: seq<string> := ["Đầu tiên", "Thứ hai", "Cuối cùng", "First", "Second", "Finally"]

  /** How many of `words[..n]` occur in `s`. */
  function Hits(s: string, words: seq<string>, n: nat): nat
    requires n <= |words|
  {
    if n == 0 then 0 else Hits(s, words, n - 1) + (if Contains(s, words[n - 1]) then 1 else 0)
  }

  /** The importance score: one point per importance word in the lower-cased sentence. */
  method ImportanceScore(sentence: string) returns (score: nat)
    ensures score == Hits(Lower(sentence), ImportanceWords, |ImportanceWords|)
  {
    score := 0;
    var lowered := Lower(sentence);
    for k := 0 to |ImportanceWords|
      invariant score == Hits(lowered, ImportanceWords, k)
    {
      if Contains(lowered, ImportanceWords[k]) {
        score := score + 1;
      }
    }
  }

  /** A positive score means some word occurs. */
  lemma {:induction false} HitsPositive(s: string, words: seq<string>, n: nat)
    requires n <= |words|
    ensures Hits(s, words, n) > 0 <==> exists i :: 0 <= i < n && Contains(s, words[i])
  {
    if n > 0 {
      HitsPositive(s, words, n - 1);
    }
  }

  /** The test a stripped sentence must pass. */
  predicate IsKeySentence(s: string)
  {
    20 < |s| < 200
    && (Hits(Lower(s), ImportanceWords, |ImportanceWords|) > 0 || PdfStructure.AnyPrefix(s, OrdinalOpeners))
  }

  /** `content.replace('\n', ' ').split('.')` */
  function Sentences(content: string): seq<string>
  {
    Split(ReplaceAll(content, "\n", " "), ".")
  }

  /** The sentence `raw` stripped, when it passes the test `isKey`. */
  function KeyOf(raw: string, isKey: string -> bool): seq<string>
  {
    var s := Strip(raw);
    if isKey(s) then [s] else []
  }

  /** The stripped sentences among `ss` that pass `isKey`, in order. */
  function KeySentences(ss: seq<string>, isKey: string -> bool): seq<string>
  {
    if |ss| == 0 then [] else KeySentences(ss[..|ss| - 1], isKey) + KeyOf(ss[|ss| - 1], isKey)
  }

  /** `_extract_key_points`: the first five key sentences. */
  function KeyPoints(content: string): seq<string>
  {
    var ks := KeySentences(Sentences(content), IsKeySentence);
    ks[..Min(5, |ks|)]
  }

  method ExtractKeyPoints(content: string) returns (keyPoints: seq<string>)
    ensures keyPoints == KeyPoints(content)
  {
    var sentences := Split(ReplaceAll(content, "\n", " "), ".");
    keyPoints := KeySentencesOf(sentences);
    keyPoints := keyPoints[..Min(5, |keyPoints|)];
  }

  /** The loop of `_extract_key_points`, over the sentences. */
  method KeySentencesOf(sentences: seq<string>) returns (keyPoints: seq<string>)
    ensures keyPoints == KeySentences(sentences, IsKeySentence)
  {
    keyPoints := [];
    for i := 0 to |sentences|
      invariant keyPoints == KeySentences(sentences[..i], IsKeySentence)
    {
      assert sentences[..i + 1][..i] == sentences[..i];
      var found := KeySentenceOf(sentences[i]);
      keyPoints := keyPoints + found;
    }
    assert sentences[..|sentences|] == sentences;
  }

  /** The body of the loop: one sentence, stripped, scored and tested. */
  method KeySentenceOf(raw: string) returns (found: seq<string>)
    ensures found == KeyOf(raw, IsKeySentence)
  {
    found := [];
    var sentence := Strip(raw);
    if 20 < |sentence| < 200 {
      var score := ImportanceScore(sentence);
      if score > 0 || StartsWithOpener(sentence) {
        found := [sentence];
      }
    }
  }

  /** `sentence.startswith(('Đầu tiên', …, 'Finally'))` */
  function StartsWithOpener(sentence: string): (r: bool)
    ensures r == PdfStructure.AnyPrefix(sentence, OrdinalOpeners)
  {
    assert OrdinalOpeners[0..] == OrdinalOpeners;
    FirstPrefix(sentence, OrdinalOpeners, 0)
  }

  function FirstPrefix(s: string, words: seq<string>, from: nat): (r: bool)
    requires from <= |words|
    ensures r == PdfStructure.AnyPrefix(s, words[from..])
    decreases |words| - from
  {
    if from == |words| then false
    else
      assert words[from..][0] == words[from] && words[from..][1..] == words[from + 1..];
      StartsWith(s, words[from]) || FirstPrefix(s, words, from + 1)
  }

  /** What a key point is: a stripped sentence that passes the test, holding
      neither a full stop nor a line break. */
  predicate GoodKeyPoint(s: string, isKey: string -> bool)
  {
    isKey(s) && Trimmed(s) && NoChar(s, '.') && NoChar(s, '\n')
  }

  lemma {:induction false} KeySentenceMember(ss: seq<string>, isKey: string -> bool, k: nat)
    requires forall j :: 0 <= j < |ss| ==> NoChar(ss[j], '.') && NoChar(ss[j], '\n')
    requires k < |KeySentences(ss, isKey)|
    ensures GoodKeyPoint(KeySentences(ss, isKey)[k], isKey)
  {
    var init, raw := ss[..|ss| - 1], ss[|ss| - 1];
    var rest, last := KeySentences(init, isKey), KeyOf(raw, isKey);
    assert KeySentences(ss, isKey) == rest + last;
    if k < |rest| {
      KeySentenceMember(init, isKey, k);
      assert (rest + last)[k] == rest[k];
    } else {
      NoCharStrip(raw, '.');
      NoCharStrip(raw, '\n');
      assert (rest + last)[k] == last[k - |rest|];
    }
  }

  /** At most five key points, each a good key point of at most 199
      characters, and together the first key sentences in their original
      order. */
  lemma KeyPointsFacts(content: string)
    ensures |KeyPoints(content)| <= 5
    ensures forall k :: 0 <= k < |KeyPoints(content)| ==>
      GoodKeyPoint(KeyPoints(content)[k], IsKeySentence) && 20 < |KeyPoints(content)[k]| < 200
    ensures KeyPoints(content) == KeySentences(Sentences(content), IsKeySentence)[..|KeyPoints(content)|]
  {
    var flat := ReplaceAll(content, "\n", " ");
    NoLineBreakAfterReplace(content);
    var ss := Split(flat, ".");
    SplitPiecesFree(flat, ".");
    NoCharSplit(flat, ".", '\n');
    forall k | 0 <= k < |ss|
      ensures NoChar(ss[k], '.') && NoChar(ss[k], '\n')
    {
      NoCharOfAbsent(ss[k], '.');
    }
    var ks := KeySentences(ss, IsKeySentence);
    forall k | 0 <= k < |ks|
      ensures GoodKeyPoint(ks[k], IsKeySentence)
    {
      KeySentenceMember(ss, IsKeySentence, k);
    }
  }

  // ---------------------------------------------------------------------------
  // Presentation chunks
  // ---------------------------------------------------------------------------

  datatype PresentationChunk = PresentationChunk(
    chunkId: nat, content: string, contentType: ContentType, keyPoints: seq<string>,
    slideStructure: SlideStructure, metadata: map<string, string>, wordCount: nat, estimatedSlides: nat)

  /** The record for chunk `i`. */
  function ChunkRecord(i: nat, doc: Document): PresentationChunk
  {
    var content := Strip(doc.content);
    var t := AnalyzeContentType(content);
    var kp := KeyPoints(content);
    PresentationChunk(i, content, t, kp, SuggestSlideStructure(t), doc.metadata, |Words(content)|, Max(1, |kp| / 3))
  }

  /** `_create_presentation_chunks` */
  method CreatePresentationChunks(docs: seq<Document>) returns (chunks: seq<PresentationChunk>)
    ensures |chunks| == |docs|
    ensures forall i :: 0 <= i < |docs| ==> chunks[i] == ChunkRecord(i, docs[i])
  {
    chunks := [];
    for i := 0 to |docs|
      invariant |chunks| == i
      invariant forall j :: 0 <= j < i ==> chunks[j] == ChunkRecord(j, docs[j])
    {
      var record := MakeRecord(i, docs[i]);
      Recorded(chunks, record, docs, i);
      chunks := chunks + [record];
    }
  }

  lemma Recorded(chunks: seq<PresentationChunk>, record: PresentationChunk, docs: seq<Document>, i: nat)
    requires i == |chunks| < |docs| && record == ChunkRecord(i, docs[i])
    requires forall j :: 0 <= j < i ==> chunks[j] == ChunkRecord(j, docs[j])
    ensures forall j :: 0 <= j <= i ==> (chunks + [record])[j] == ChunkRecord(j, docs[j])
  {
    forall j | 0 <= j <= i
      ensures (chunks + [record])[j] == ChunkRecord(j, docs[j])
    {
      if j < i {
        assert (chunks + [record])[j] == chunks[j];
      }
    }
  }

  /** The body of the loop: analyse one document. */
  method MakeRecord(i: nat, doc: Document) returns (record: PresentationChunk)
    ensures record == ChunkRecord(i, doc)
  {
    var content := Strip(doc.content);
    var contentType := AnalyzeContentType(content);
    var keyPoints := ExtractKeyPoints(content);
    var structure := SuggestSlideStructure(contentType);
    record := PresentationChunk(i, content, contentType, keyPoints, structure, doc.metadata,
                                |Words(content)|, Max(1, |keyPoints| / 3));
  }

  /** Each record numbers its chunk, keeps the stripped content and the
      metadata, and estimates exactly one slide: with at most five key points,
      `max(1, len(key_points) // 3)` is always 1. */
  lemma ChunkRecordFacts(i: nat, doc: Document)
    ensures ChunkRecord(i, doc).chunkId == i
    ensures ChunkRecord(i, doc).content == Strip(doc.content) && Trimmed(ChunkRecord(i, doc).content)
    ensures ChunkRecord(i, doc).metadata == doc.metadata
    ensures ChunkRecord(i, doc).estimatedSlides == 1
  {
    KeyPointsFacts(Strip(doc.content));
  }

  // ---------------------------------------------------------------------------
  // extract_and_chunk_content
  // ---------------------------------------------------------------------------

  datatype ErrorKind = FileNotFoundError | ValueError | GenericException

  datatype Exception = Exception(kind: ErrorKind, message: string)

  /** What PyMuPDF yields for structure analysis: page texts, page blocks and the TOC. */
  datatype PdfPages = PdfPages(texts: seq<string>, blocks: seq<PdfStructure.Page>, toc: seq<PdfStructure.TocEntry>)

  datatype DocumentStructure =
    | Structure(tableOfContents: seq<PdfStructure.TocEntry>, fontsAnalysis: map<PdfStructure.FontKey, PdfStructure.FontProfile>,
                estimatedSections: seq<PdfStructure.Section>)
    | NoStructure(error: string)

  /** `_extract_document_structure`: a failure to open the file is recorded, not raised. */
  function StructureOf(pdf: Result<PdfPages, string>): DocumentStructure
  {
    match pdf
    case Err(e) => NoStructure(e)
    case Ok(p) => Structure(p.toc, PdfStructure.FontInfo(p.blocks), PdfStructure.Sections(p.toc, p.texts))
  }

  datatype Extraction = Extraction(
    rawDocuments: seq<Document>, chunkedDocuments: seq<Document>, presentationChunks: seq<PresentationChunk>,
    documentStructure: DocumentStructure, images: seq<string>,
    strategy: string, chunkSize: int, chunkOverlap: int, totalChunks: nat)

  /** The whole entry point.  `fileExists` is `os.path.exists(pdf_path)`, `load` the
      outcome of the loader chain, `images` that of `extract_images`, and
      `split` LangChain's `split_documents`. */
  function ExtractAndChunk(pdfPath: string, fileExists: bool, strategy: string, chunkSize: int, chunkOverlap: int,
                           extractImages: bool, outputDir: Option<string>,
                           load: Result<seq<Document>, string>, pdf: Result<PdfPages, string>,
                           images: Result<seq<string>, string>,
                           split: (Splitter, seq<Document>) -> seq<Document>): (r: Result<Extraction, Exception>)
    ensures !fileExists ==> r == Err(Exception(FileNotFoundError, "PDF file not found: " + pdfPath))
    ensures fileExists && extractImages && (outputDir.None? || outputDir.value == "") ==>
      r == Err(Exception(ValueError, "output_dir is required when extract_images=True"))
    ensures r.Err? && r.error.kind == GenericException ==>
      StartsWith(r.error.message, "Error processing PDF: ")
    ensures r.Ok? ==> r.value.totalChunks == |r.value.chunkedDocuments| == |r.value.presentationChunks|
    ensures r.Ok? ==> !extractImages ==> r.value.images == []
  {
    if !fileExists then Err(Exception(FileNotFoundError, "PDF file not found: " + pdfPath))
    else if extractImages && (outputDir.None? || outputDir.value == "") then
      Err(Exception(ValueError, "output_dir is required when extract_images=True"))
    else if load.Err? then Err(Exception(GenericException, "Error processing PDF: " + load.error))
    else if extractImages && images.Err? then Err(Exception(GenericException, "Error processing PDF: " + images.error))
    else
      var docs := load.value;
      var chunked := ApplyStrategy(docs, strategy, chunkSize, chunkOverlap, split);
      var structure := StructureOf(pdf);
      var paths := if extractImages then images.value else [];
      var chunks := seq(|chunked|, i requires 0 <= i < |chunked| => ChunkRecord(i, chunked[i]));
      Ok(Extraction(docs, chunked, chunks, structure, paths, strategy, chunkSize, chunkOverlap, |chunked|))
  }
}
