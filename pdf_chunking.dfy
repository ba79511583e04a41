/** Chunking of loaded documents: the paragraph-and-header splitter, hybrid
    chunking and the dispatch on the strategy name.  LangChain's splitters are
    an uninterpreted function of the splitter configuration. */
module PdfChunking {
  import opened Wrappers
  import opened Text
  import PdfStructure

  // ---------------------------------------------------------------------------
  // Structural splitting
  // ---------------------------------------------------------------------------

  const ParagraphBreak := "\n\n"

  /** `paragraph.split('\n')[0]` */
  function FirstLine(p: string): string
  {
    Split(p, "\n")[0]
  }

  /** The structural splitter's header test on a stripped paragraph. */
  predicate IsStructuralHeader(p: string)
  {
    |FirstLine(p)| < 100
    && (StartsWith(p, "#") || PdfStructure.AnyPrefix(Lower(p), PdfStructure.HeadingWords) || IsUpper(p))
  }

  /** A stripped paragraph the loop keeps. */
  predicate Kept(p: string)
  {
    |p| > 0 && Trimmed(p)
  }

  predicate AllKept(ps: seq<string>)
  {
    forall k :: 0 <= k < |ps| ==> Kept(ps[k])
  }

  /** The stripped paragraphs of `ps` that are not blank, in order. */
  function KeptParagraphs(ps: seq<string>): (ks: seq<string>)
    ensures AllKept(ks)
  {
    if |ps| == 0 then []
    else
      var p := Strip(ps[|ps| - 1]);
      KeptParagraphs(ps[..|ps| - 1]) + (if p != "" then [p] else [])
  }

  /** The paragraphs `_split_by_structure` works on. */
  function Paragraphs(text: string): seq<string>
  {
    KeptParagraphs(Split(text, ParagraphBreak))
  }

  /** The grouping of kept paragraphs into chunks: a header opens a new group
      when a group is already accumulating; anything else joins the last group. */
  function Groups(ks: seq<string>, isHeader: string -> bool): seq<seq<string>>
  {
    if |ks| == 0 then []
    else
      var gs := Groups(ks[..|ks| - 1], isHeader);
      var p := ks[|ks| - 1];
      if |gs| == 0 || isHeader(p) then gs + [[p]]
      else gs[..|gs| - 1] + [gs[|gs| - 1] + [p]]
  }

  /** Each group joined by blank lines. */
  function JoinEach(gs: seq<seq<string>>): (r: seq<string>)
    ensures |r| == |gs|
  {
    if |gs| == 0 then [] else JoinEach(gs[..|gs| - 1]) + [Join(gs[|gs| - 1], ParagraphBreak)]
  }

  /** What `_split_by_structure` returns. */
  function StructureChunks(text: string): seq<string>
  {
    JoinEach(Groups(Paragraphs(text), IsStructuralHeader))
  }

  method SplitByStructure(text: string) returns (chunks: seq<string>)
    ensures chunks == StructureChunks(text)
  {
    chunks := [];
    var paragraphs := Split(text, ParagraphBreak);
    var current := "";
    for i := 0 to |paragraphs|
      invariant Open(chunks, current, Groups(KeptParagraphs(paragraphs[..i]), IsStructuralHeader))
    {
      KeptStep(paragraphs, i);
      chunks, current := Step(chunks, current, KeptParagraphs(paragraphs[..i]), paragraphs[i]);
    }
    assert paragraphs[..|paragraphs|] == paragraphs;
    chunks := Finish(chunks, current, Paragraphs(text));
  }

  lemma KeptStep(ps: seq<string>, i: nat)
    requires i < |ps|
    ensures KeptParagraphs(ps[..i + 1]) == KeptParagraphs(ps[..i]) + (if Strip(ps[i]) != "" then [Strip(ps[i])] else [])
  {
    assert ps[..i + 1][..i] == ps[..i];
  }

  /** One loop iteration: skip a blank paragraph, otherwise close or extend. */
  method Step(chunks: seq<string>, current: string, ghost ks: seq<string>, raw: string)
    returns (chunks': seq<string>, current': string)
    requires Open(chunks, current, Groups(ks, IsStructuralHeader)) && AllKept(ks)
    ensures Open(chunks', current', Groups(ks + (if Strip(raw) != "" then [Strip(raw)] else []), IsStructuralHeader))
  {
    chunks', current' := chunks, current;
    ghost var gs := Groups(ks, IsStructuralHeader);
    GroupsKept(ks, IsStructuralHeader);
    var paragraph := Strip(raw);
    if paragraph != "" {
      GroupsSnoc(ks, paragraph, IsStructuralHeader);
      var isHeader := |Split(paragraph, "\n")[0]| < 100
        && (StartsWith(paragraph, "#") || PdfStructure.AnyPrefix(Lower(paragraph), PdfStructure.HeadingWords) || IsUpper(paragraph));
      assert isHeader == IsStructuralHeader(paragraph);
      OpenEmpty(chunks, current, gs);
      if isHeader && current != "" {
        chunks', current' := Close(chunks, current, gs, paragraph);
      } else {
        current' := Extend(chunks, current, gs, paragraph);
      }
    } else {
      assert ks + [] == ks;
    }
  }

  /** The grouping of one more paragraph. */
  lemma GroupsSnoc(ks: seq<string>, p: string, isHeader: string -> bool)
    ensures var gs := Groups(ks, isHeader);
      Groups(ks + [p], isHeader) == if |gs| == 0 || isHeader(p) then gs + [[p]] else gs[..|gs| - 1] + [gs[|gs| - 1] + [p]]
  {
    assert (ks + [p])[..|ks|] == ks;
  }

  /** The accumulating chunk is empty exactly when there are no groups yet. */
  lemma OpenEmpty(chunks: seq<string>, current: string, gs: seq<seq<string>>)
    requires Open(chunks, current, gs)
    ensures current == "" <==> |gs| == 0
  {
    if |gs| > 0 {
      assert |current| >= |ParagraphBreak|;
    }
  }

  /** After the loop: emit the accumulating chunk, stripped, if there is one. */
  method Finish(chunks: seq<string>, current: string, ghost ks: seq<string>) returns (chunks': seq<string>)
    requires Open(chunks, current, Groups(ks, IsStructuralHeader)) && AllKept(ks)
    ensures chunks' == JoinEach(Groups(ks, IsStructuralHeader))
  {
    ghost var gs := Groups(ks, IsStructuralHeader);
    GroupsKept(ks, IsStructuralHeader);
    OpenStrip(chunks, current, gs);
    chunks' := chunks;
    if Strip(current) != "" {
      chunks' := chunks + [Strip(current)];
    }
  }

  /** The accumulating chunk, stripped, is the last group joined, and blank
      only when there are no groups. */
  lemma OpenStrip(chunks: seq<string>, current: string, gs: seq<seq<string>>)
    requires Open(chunks, current, gs) && GroupsOk(gs)
    ensures |gs| == 0 ==> Strip(current) == "" && chunks == JoinEach(gs)
    ensures |gs| > 0 ==> Strip(current) != "" && chunks + [Strip(current)] == JoinEach(gs)
  {
    if |gs| > 0 {
      StripJoined(gs[|gs| - 1]);
    } else {
      assert AllSpace(current);
    }
  }

  /** A group joined, with the trailing blank line, strips to the group joined. */
  lemma StripJoined(g: seq<string>)
    requires |g| > 0 && AllKept(g)
    ensures Strip(Join(g, ParagraphBreak) + ParagraphBreak) == Join(g, ParagraphBreak) != ""
  {
    var j := Join(g, ParagraphBreak);
    JoinTrimmed(g);
    StripUnique("", j, ParagraphBreak);
    assert "" + j + ParagraphBreak == j + ParagraphBreak;
  }

  /** The loop state for groups `gs`: `chunks` holds all groups but the last,
      joined, and `current` the last one with a blank line after each paragraph. */
  ghost predicate Open(chunks: seq<string>, current: string, gs: seq<seq<string>>)
  {
    if |gs| == 0 then chunks == [] && current == ""
    else chunks == JoinEach(gs[..|gs| - 1]) && current == Join(gs[|gs| - 1], ParagraphBreak) + ParagraphBreak
  }

  /** A header while a chunk accumulates: emit the stripped chunk and start anew. */
  method Close(chunks: seq<string>, current: string, ghost gs: seq<seq<string>>, paragraph: string)
    returns (chunks': seq<string>, current': string)
    requires Open(chunks, current, gs) && |gs| > 0 && GroupsOk(gs) && Kept(paragraph)
    ensures Open(chunks', current', gs + [[paragraph]])
  {
    StripJoined(gs[|gs| - 1]);
    chunks' := chunks + [Strip(current)];
    current' := paragraph + ParagraphBreak;
    assert (gs + [[paragraph]])[..|gs|] == gs;
    assert JoinEach(gs) == chunks + [Join(gs[|gs| - 1], ParagraphBreak)];
  }

  /** Any other paragraph joins the accumulating chunk. */
  method Extend(chunks: seq<string>, current: string, ghost gs: seq<seq<string>>, paragraph: string)
    returns (current': string)
    requires Open(chunks, current, gs) && GroupsOk(gs)
    ensures |gs| == 0 ==> Open(chunks, current', gs + [[paragraph]])
    ensures |gs| > 0 ==> Open(chunks, current', gs[..|gs| - 1] + [gs[|gs| - 1] + [paragraph]])
  {
    current' := current + paragraph + ParagraphBreak;
    if |gs| > 0 {
      var g := gs[|gs| - 1];
      JoinSnoc(g, paragraph, ParagraphBreak);
      assert (gs[..|gs| - 1] + [g + [paragraph]])[..|gs| - 1] == gs[..|gs| - 1];
    }
  }

  /** Groups are non-empty and hold kept paragraphs. */
  predicate GroupsOk(gs: seq<seq<string>>)
  {
    forall k :: 0 <= k < |gs| ==> |gs[k]| > 0 && AllKept(gs[k])
  }

  /** The grouping keeps every paragraph, in order, in non-empty groups. */
  lemma GroupsKept(ks: seq<string>, isHeader: string -> bool)
    requires AllKept(ks)
    ensures GroupsOk(Groups(ks, isHeader))
    ensures Flatten(Groups(ks, isHeader)) == ks
  {
    GroupsFlatten(ks, isHeader);
    GroupsMembers(ks, isHeader);
  }

  lemma {:induction false} GroupsFlatten(ks: seq<string>, isHeader: string -> bool)
    ensures Flatten(Groups(ks, isHeader)) == ks
  {
    if |ks| > 0 {
      var init, p := ks[..|ks| - 1], ks[|ks| - 1];
      assert ks == init + [p];
      GroupsFlatten(init, isHeader);
      GroupsSnoc(init, p, isHeader);
      var gs := Groups(init, isHeader);
      if |gs| == 0 || isHeader(p) {
        FlattenSnoc(gs, [p]);
      } else {
        var front, last := gs[..|gs| - 1], gs[|gs| - 1];
        assert gs == front + [last];
        FlattenSnoc(front, last);
        FlattenSnoc(front, last + [p]);
      }
    }
  }

  /** No group is empty. */
  lemma {:induction false} GroupsNonEmpty(ks: seq<string>, isHeader: string -> bool)
    ensures forall k :: 0 <= k < |Groups(ks, isHeader)| ==> |Groups(ks, isHeader)[k]| > 0
  {
    if |ks| > 0 {
      var init, p := ks[..|ks| - 1], ks[|ks| - 1];
      assert ks == init + [p];
      GroupsNonEmpty(init, isHeader);
      GroupsSnoc(init, p, isHeader);
    }
  }

  /** Every member of a group is one of the paragraphs. */
  lemma {:induction false} GroupsMembers(ks: seq<string>, isHeader: string -> bool)
    requires AllKept(ks)
    ensures GroupsOk(Groups(ks, isHeader))
  {
    if |ks| > 0 {
      var init, p := ks[..|ks| - 1], ks[|ks| - 1];
      assert ks == init + [p];
      assert AllKept(init);
      GroupsMembers(init, isHeader);
      GroupsSnoc(init, p, isHeader);
      GroupsOkSnoc(Groups(init, isHeader), p);
    }
  }

  /** Starting a group with a kept paragraph, or adding one to the last group,
      keeps the groups well formed. */
  lemma GroupsOkSnoc(gs: seq<seq<string>>, p: string)
    requires GroupsOk(gs) && Kept(p)
    ensures GroupsOk(gs + [[p]])
    ensures |gs| > 0 ==> GroupsOk(gs[..|gs| - 1] + [gs[|gs| - 1] + [p]])
  {
    assert forall k :: 0 <= k < |gs| ==> (gs + [[p]])[k] == gs[k];
    if |gs| > 0 {
      var last := gs[|gs| - 1];
      assert AllKept(last + [p]);
      var gs' := gs[..|gs| - 1] + [last + [p]];
      assert forall k :: 0 <= k < |gs| - 1 ==> gs'[k] == gs[k];
    }
  }

  /** Every group after the first opens with a header. */
  lemma {:induction false} GroupsHeaders(ks: seq<string>, isHeader: string -> bool)
    ensures forall k :: 0 < k < |Groups(ks, isHeader)| ==> |Groups(ks, isHeader)[k]| > 0 && isHeader(Groups(ks, isHeader)[k][0])
  {
    if |ks| > 0 {
      var init, p := ks[..|ks| - 1], ks[|ks| - 1];
      assert ks == init + [p];
      GroupsHeaders(init, isHeader);
      GroupsNonEmpty(init, isHeader);
      GroupsSnoc(init, p, isHeader);
      var gs := Groups(init, isHeader);
      if |gs| > 0 && !isHeader(p) {
        var last := gs[|gs| - 1];
        var gs' := gs[..|gs| - 1] + [last + [p]];
        assert forall k :: 0 <= k < |gs| - 1 ==> gs'[k] == gs[k];
        assert gs'[|gs| - 1] == last + [p];
      }
    }
  }

  /** No header sits inside a group. */
  lemma {:induction false} GroupsInterior(ks: seq<string>, isHeader: string -> bool)
    ensures forall k, j :: 0 <= k < |Groups(ks, isHeader)| && 0 < j < |Groups(ks, isHeader)[k]| ==> !isHeader(Groups(ks, isHeader)[k][j])
  {
    if |ks| > 0 {
      var init, p := ks[..|ks| - 1], ks[|ks| - 1];
      assert ks == init + [p];
      GroupsInterior(init, isHeader);
      GroupsNonEmpty(init, isHeader);
      GroupsSnoc(init, p, isHeader);
      var gs := Groups(init, isHeader);
      if |gs| > 0 && !isHeader(p) {
        var last := gs[|gs| - 1];
        var gs' := gs[..|gs| - 1] + [last + [p]];
        assert forall k :: 0 <= k < |gs| - 1 ==> gs'[k] == gs[k];
        assert gs'[|gs| - 1] == last + [p];
      }
    }
  }

  function Flatten(gs: seq<seq<string>>): seq<string>
  {
    if |gs| == 0 then [] else Flatten(gs[..|gs| - 1]) + gs[|gs| - 1]
  }

  lemma FlattenSnoc(gs: seq<seq<string>>, g: seq<string>)
    ensures Flatten(gs + [g]) == Flatten(gs) + g
  {
    assert (gs + [g])[..|gs|] == gs;
  }

  /** Kept paragraphs joined by blank lines have no surrounding whitespace. */
  lemma JoinTrimmed(g: seq<string>)
    requires |g| > 0 && AllKept(g)
    ensures Trimmed(Join(g, ParagraphBreak)) && |Join(g, ParagraphBreak)| > 0
  {
    JoinEnds(g, ParagraphBreak);
  }

  lemma JoinEnds(g: seq<string>, sep: string)
    requires |g| > 0 && |g[0]| > 0 && |g[|g| - 1]| > 0
    ensures |Join(g, sep)| > 0
    ensures Join(g, sep)[0] == g[0][0]
    ensures Join(g, sep)[|Join(g, sep)| - 1] == g[|g| - 1][|g[|g| - 1]| - 1]
  {
    if |g| > 1 {
      assert Join(g, sep) == g[0] + sep + Join(g[1..], sep);
      assert g == g[..|g| - 1] + [g[|g| - 1]];
      JoinSnoc(g[..|g| - 1], g[|g| - 1], sep);
    }
  }

  /** Every chunk is non-empty and equal to its own strip. */
  lemma ChunksTrimmed(text: string)
    ensures forall k :: 0 <= k < |StructureChunks(text)| ==>
      |StructureChunks(text)[k]| > 0 && Strip(StructureChunks(text)[k]) == StructureChunks(text)[k]
  {
    var gs := Groups(Paragraphs(text), IsStructuralHeader);
    GroupsKept(Paragraphs(text), IsStructuralHeader);
    forall k | 0 <= k < |gs|
      ensures |JoinEach(gs)[k]| > 0 && Strip(JoinEach(gs)[k]) == JoinEach(gs)[k]
    {
      JoinEachAt(gs, k);
      JoinTrimmed(gs[k]);
      StripTrimmed(Join(gs[k], ParagraphBreak));
    }
  }

  lemma {:induction false} JoinEachAt(gs: seq<seq<string>>, k: nat)
    requires k < |gs|
    ensures JoinEach(gs)[k] == Join(gs[k], ParagraphBreak)
  {
    if k < |gs| - 1 {
      JoinEachAt(gs[..|gs| - 1], k);
    }
  }

  /** No text is lost or added: the chunks joined by blank lines are the kept
      paragraphs joined by blank lines. */
  lemma ChunksPreserveContent(text: string)
    ensures Join(StructureChunks(text), ParagraphBreak) == Join(Paragraphs(text), ParagraphBreak)
  {
    GroupsKept(Paragraphs(text), IsStructuralHeader);
    JoinOfGroups(Groups(Paragraphs(text), IsStructuralHeader));
  }

  lemma {:induction false} JoinOfGroups(gs: seq<seq<string>>)
    requires forall k :: 0 <= k < |gs| ==> |gs[k]| > 0
    ensures Join(JoinEach(gs), ParagraphBreak) == Join(Flatten(gs), ParagraphBreak)
  {
    if |gs| > 1 {
      var init := gs[..|gs| - 1];
      var g := gs[|gs| - 1];
      JoinOfGroups(init);
      JoinSnoc(JoinEach(init), Join(g, ParagraphBreak), ParagraphBreak);
      FlattenNonEmpty(init);
      JoinAppend(Flatten(init), g, ParagraphBreak);
    } else if |gs| == 1 {
      assert gs[..0] == [];
      assert JoinEach(gs) == [Join(gs[0], ParagraphBreak)];
      assert Flatten(gs) == gs[0];
    }
  }

  lemma {:induction false} FlattenNonEmpty(gs: seq<seq<string>>)
    requires |gs| > 0 && forall k :: 0 <= k < |gs| ==> |gs[k]| > 0
    ensures |Flatten(gs)| > 0
  {
  }

  // ---------------------------------------------------------------------------
  // Hybrid chunking
  // ---------------------------------------------------------------------------

  /** A LangChain document: its text and the metadata it carries. */
  datatype Document = Document(content: string, metadata: map<string, string>)

  /** The documents one document's structural chunks become: a chunk longer
      than `chunkSize` goes to the splitter, the others stay whole. */
  function PieceDocs(chunks: seq<string>, metadata: map<string, string>, chunkSize: int, split: Document -> seq<Document>): seq<Document>
  {
    if |chunks| == 0 then []
    else
      var c := chunks[|chunks| - 1];
      PieceDocs(chunks[..|chunks| - 1], metadata, chunkSize, split)
      + (if |c| > chunkSize then split(Document(c, metadata)) else [Document(c, metadata)])
  }

  /** `_apply_hybrid_chunking` */
  function Hybrid(docs: seq<Document>, chunkSize: int, split: Document -> seq<Document>): seq<Document>
  {
    if |docs| == 0 then []
    else
      var d := docs[|docs| - 1];
      Hybrid(docs[..|docs| - 1], chunkSize, split) + PieceDocs(StructureChunks(d.content), d.metadata, chunkSize, split)
  }

  method HybridChunking(docs: seq<Document>, chunkSize: int, split: Document -> seq<Document>) returns (chunked: seq<Document>)
    ensures chunked == Hybrid(docs, chunkSize, split)
  {
    chunked := [];
    for i := 0 to |docs|
      invariant chunked == Hybrid(docs[..i], chunkSize, split)
    {
      assert docs[..i + 1][..i] == docs[..i];
      var pieces := ChunkDocument(docs[i], chunkSize, split);
      chunked := chunked + pieces;
    }
    assert docs[..|docs|] == docs;
  }

  /** The inner loop of `_apply_hybrid_chunking`: one document's structural
      chunks, each too long one handed to the splitter. */
  method ChunkDocument(doc: Document, chunkSize: int, split: Document -> seq<Document>) returns (pieces: seq<Document>)
    ensures pieces == PieceDocs(StructureChunks(doc.content), doc.metadata, chunkSize, split)
  {
    var structural := SplitByStructure(doc.content);
    pieces := SplitOversize(structural, doc.metadata, chunkSize, split);
  }

  /** Each structural chunk longer than `chunkSize` handed to the splitter,
      the others kept whole, in order. */
  method SplitOversize(structural: seq<string>, metadata: map<string, string>, chunkSize: int, split: Document -> seq<Document>)
    returns (pieces: seq<Document>)
    ensures pieces == PieceDocs(structural, metadata, chunkSize, split)
  {
    pieces := [];
    for j := 0 to |structural|
      invariant pieces == PieceDocs(structural[..j], metadata, chunkSize, split)
    {
      assert structural[..j + 1][..j] == structural[..j];
      var chunkText := structural[j];
      if |chunkText| > chunkSize {
        pieces := pieces + split(Document(chunkText, metadata));
      } else {
        pieces := pieces + [Document(chunkText, metadata)];
      }
    }
    assert structural[..|structural|] == structural;
  }

  /** The documents structural chunks become when none is longer than the
      chunk size: one per chunk, with that text and the source's metadata. */
  predicate Whole(pieces: seq<Document>, chunks: seq<string>, metadata: map<string, string>)
  {
    |pieces| == |chunks| && forall k :: 0 <= k < |chunks| ==> pieces[k] == Document(chunks[k], metadata)
  }

  lemma {:induction false} PieceDocsFit(chunks: seq<string>, metadata: map<string, string>, chunkSize: int, split: Document -> seq<Document>)
    requires forall k :: 0 <= k < |chunks| ==> |chunks[k]| <= chunkSize
    ensures Whole(PieceDocs(chunks, metadata, chunkSize, split), chunks, metadata)
  {
    if |chunks| > 0 {
      PieceDocsFit(chunks[..|chunks| - 1], metadata, chunkSize, split);
    }
  }

  /** A one-document input whose structural chunks all fit is never handed to
      the splitter: each chunk becomes one document with the input's metadata. */
  lemma HybridFits(d: Document, chunkSize: int, split: Document -> seq<Document>)
    requires forall k :: 0 <= k < |StructureChunks(d.content)| ==> |StructureChunks(d.content)[k]| <= chunkSize
    ensures Whole(Hybrid([d], chunkSize, split), StructureChunks(d.content), d.metadata)
  {
    assert [d][..0] == [];
    PieceDocsFit(StructureChunks(d.content), d.metadata, chunkSize, split);
  }

  /** Every document of the hybrid output either came from the splitter or
      is a structural chunk that fits. */
  lemma {:induction false} PieceDocsOrigin(chunks: seq<string>, metadata: map<string, string>, chunkSize: int, split: Document -> seq<Document>)
    ensures |chunks| > 0 && |chunks[|chunks| - 1]| <= chunkSize ==>
      PieceDocs(chunks, metadata, chunkSize, split)[|PieceDocs(chunks, metadata, chunkSize, split)| - 1]
      == Document(chunks[|chunks| - 1], metadata)
    ensures |PieceDocs(chunks, metadata, chunkSize, split)| >= CountFitting(chunks, chunkSize)
  {
    if |chunks| > 0 {
      PieceDocsOrigin(chunks[..|chunks| - 1], metadata, chunkSize, split);
    }
  }

  /** The number of structural chunks of at most `chunkSize` characters. */
  function CountFitting(chunks: seq<string>, chunkSize: int): nat
  {
    if |chunks| == 0 then 0
    else CountFitting(chunks[..|chunks| - 1], chunkSize) + (if |chunks[|chunks| - 1]| <= chunkSize then 1 else 0)
  }

  // ---------------------------------------------------------------------------
  // Strategy dispatch
  // ---------------------------------------------------------------------------

  /** The LangChain splitter configurations the dispatch builds. */
  datatype Splitter =
    | RecursiveCharacter(chunkSize: int, chunkOverlap: int, separators: seq<string>)
    | MarkdownText(chunkSize: int, chunkOverlap: int)
    | TokenText(chunkSize: int, chunkOverlap: int)

  /** The separators the code passes explicitly. */
  const ExplicitSeparators: seq<string> := ["\n\n", "\n", ".", "!", "?", ",", " ", ""]

  /** LangChain's default separators, used when none are passed. */
  const DefaultSeparators: seq<string> := ["\n\n", "\n", " ", ""]

  /** The recursive splitter built once in the constructor, used by hybrid chunking. */
  const FixedRecursive: Splitter := RecursiveCharacter(1000, 200, ExplicitSeparators)

  /** The splitter a strategy name selects; `None` for "hybrid". */
  function SplitterFor(strategy: string, chunkSize: int, chunkOverlap: int): Option<Splitter>
  {
    if strategy == "recursive" then Some(RecursiveCharacter(chunkSize, chunkOverlap, ExplicitSeparators))
    else if strategy == "markdown" then Some(MarkdownText(chunkSize, chunkOverlap))
    else if strategy == "token" then Some(TokenText(chunkSize, chunkOverlap))
    else if strategy == "hybrid" then None
    else Some(RecursiveCharacter(chunkSize, chunkOverlap, DefaultSeparators))
  }

  /** `_apply_chunking_strategy`; `split(s, docs)` is `s.split_documents(docs)`. */
  function ApplyStrategy(docs: seq<Document>, strategy: string, chunkSize: int, chunkOverlap: int,
                         split: (Splitter, seq<Document>) -> seq<Document>): seq<Document>
  {
    match SplitterFor(strategy, chunkSize, chunkOverlap)
    case None => Hybrid(docs, chunkSize, d => split(FixedRecursive, [d]))
    case Some(s) => split(s, docs)
  }

  /** "semantic" and every unknown name fall back to the same recursive splitter
      with LangChain's default separators, which differs from the "recursive"
      one; "hybrid" ignores the overlap and splits oversize chunks with the
      fixed 1000/200 splitter whatever the chunk size. */
  lemma StrategyFallbacks(docs: seq<Document>, strategy: string, chunkSize: int, chunkOverlap: int, overlap': int,
                          split: (Splitter, seq<Document>) -> seq<Document>)
    ensures strategy !in {"recursive", "markdown", "token", "hybrid"} ==>
      ApplyStrategy(docs, strategy, chunkSize, chunkOverlap, split) == ApplyStrategy(docs, "semantic", chunkSize, chunkOverlap, split)
    ensures SplitterFor("semantic", chunkSize, chunkOverlap) != SplitterFor("recursive", chunkSize, chunkOverlap)
    ensures ApplyStrategy(docs, "hybrid", chunkSize, chunkOverlap, split) == ApplyStrategy(docs, "hybrid", chunkSize, overlap', split)
    ensures ApplyStrategy(docs, "hybrid", chunkSize, chunkOverlap, split) == Hybrid(docs, chunkSize, d => split(FixedRecursive, [d]))
  {
    assert ExplicitSeparators[2] == "." && DefaultSeparators[2] == " ";
  }
}
