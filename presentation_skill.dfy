/**
 * The presentation skill: it checks its context, decodes the processed
 * slides, builds `index.html` around them and writes one file per slide and
 * one per non-empty narration into the `presentation` directory.
 *
 * File writes are modelled by what is written: the index page, and for each
 * slide its HTML and its narration if one is written.
 */
module PresentationSkill {
  import opened Wrappers
  import opened Text
  import opened Json
  import opened Skills
  import Paths
  import IndexPage

  const FailurePrefix: string := "Presentation generation failed: "

  /** Stands for the message of the `json.JSONDecodeError` raised when the
      slides do not decode; the abstract parser does not give it. */
  const DecodeErrorMessage: string := "slides are not valid JSON"

  /** Stands for the `TypeError` a slide whose `SlideHtml` is not a string
      ends in, when it is searched for `<html` or written out. */
  const SlideHtmlNotText: string := "SlideHtml is not a string"

  // ---------------------------------------------------------------------------
  // Reading the decoded slides
  // ---------------------------------------------------------------------------

  /** `len(slides_data)` and the loop over it: the header takes the length,
      which only lists, dicts and strings have; the loop then visits their
      elements. */
  function SlideItems(v: JValue): (r: Result<seq<JValue>, string>)
    ensures r.Ok? <==> v.JArray? || v.JObject? || v.JString?
    ensures r.Ok? ==> r == Iterate(v)
    ensures v.JArray? ==> r == Ok(v.items)
    ensures r.Err? ==> r.error == "object of type '" + TypeName(v) + "' has no len()"
  {
    if v.JArray? || v.JObject? || v.JString? then Iterate(v)
    else Err("object of type '" + TypeName(v) + "' has no len()")
  }

  /** What the skill reads from one slide: its HTML and its narration value. */
  datatype Entry = Entry(html: string, narration: JValue)

  /** `slide.get("SlideHtml", "")` and `slide.get("Narration", "")`. */
  function SlideEntry(slide: JValue): (r: Result<Entry, string>)
    ensures r.Ok? <==> slide.JObject? && GetOr(slide.fields, "SlideHtml", JString("")).JString?
    ensures !slide.JObject? ==> r == Err(NoGetMessage(slide))
    ensures r.Ok? && !HasField(slide.fields, "SlideHtml") ==> r.value.html == ""
    ensures r.Ok? && HasField(slide.fields, "SlideHtml") ==> ("SlideHtml", JString(r.value.html)) in slide.fields
    ensures r.Ok? && !HasField(slide.fields, "Narration") ==> r.value.narration == JString("")
  {
    if !slide.JObject? then Err(NoGetMessage(slide))
    else
      var html := GetOr(slide.fields, "SlideHtml", JString(""));
      if !html.JString? then Err(SlideHtmlNotText)
      else Ok(Entry(html.str, GetOr(slide.fields, "Narration", JString(""))))
  }

  /** The first slide that cannot be read. */
  function FirstUnreadable(items: seq<JValue>, from: nat): (r: Option<nat>)
    requires from <= |items|
    ensures r.Some? ==> from <= r.value < |items| && SlideEntry(items[r.value]).Err?
    ensures r.Some? ==> forall j :: from <= j < r.value ==> SlideEntry(items[j]).Ok?
    ensures r.None? <==> forall j :: from <= j < |items| ==> SlideEntry(items[j]).Ok?
    decreases |items| - from
  {
    if from == |items| then None
    else if SlideEntry(items[from]).Err? then Some(from)
    else FirstUnreadable(items, from + 1)
  }

  /** Every slide read in order; the first that cannot be read ends it. */
  function Entries(items: seq<JValue>): (r: Result<seq<Entry>, string>)
    ensures r.Ok? <==> forall j :: 0 <= j < |items| ==> SlideEntry(items[j]).Ok?
    ensures r.Ok? ==> |r.value| == |items| && forall j :: 0 <= j < |items| ==> SlideEntry(items[j]) == Ok(r.value[j])
    ensures r.Err? ==> exists k :: 0 <= k < |items| && FirstUnreadable(items, 0) == Some(k) && r.error == SlideEntry(items[k]).error
  {
    match FirstUnreadable(items, 0)
    case Some(k) => Err(SlideEntry(items[k]).error)
    case None => Ok(seq(|items|, j requires 0 <= j < |items| => SlideEntry(items[j]).value))
  }

  function Htmls(entries: seq<Entry>): (hs: seq<string>)
    ensures |hs| == |entries| && forall i :: 0 <= i < |entries| ==> hs[i] == entries[i].html
  {
    seq(|entries|, i requires 0 <= i < |entries| => entries[i].html)
  }

  // ---------------------------------------------------------------------------
  // The per-slide files
  // ---------------------------------------------------------------------------

  /** What is written for slide `i`: `slide_{i+1}.html`, and
      `narration_{i+1}.txt` when there is a narration to write. */
  datatype SlideFile = SlideFile(html: string, narration: Option<string>)

  function SlideFileName(i: nat): string
  {
    "slide_" + NatToString(i + 1) + ".html"
  }

  function NarrationFileName(i: nat): string
  {
    "narration_" + NatToString(i + 1) + ".txt"
  }

  /** `f.write(narration)` on a truthy narration that is not a string. */
  function NarrationError(n: JValue): Option<string>
  {
    if Truthy(n) && !n.JString? then Some("write() argument must be str, not " + TypeName(n)) else None
  }

  /** The files of a slide whose narration can be written. */
  function FileOf(e: Entry): SlideFile
  {
    SlideFile(e.html, if Truthy(e.narration) && e.narration.JString? then Some(e.narration.str) else None)
  }

  function FirstBadNarration(entries: seq<Entry>, from: nat): (r: Option<nat>)
    requires from <= |entries|
    ensures r.Some? ==> from <= r.value < |entries| && NarrationError(entries[r.value].narration).Some?
    ensures r.Some? ==> forall j :: from <= j < r.value ==> NarrationError(entries[j].narration).None?
    ensures r.None? <==> forall j :: from <= j < |entries| ==> NarrationError(entries[j].narration).None?
    decreases |entries| - from
  {
    if from == |entries| then None
    else if NarrationError(entries[from].narration).Some? then Some(from)
    else FirstBadNarration(entries, from + 1)
  }

  /** The write loop, as a value: the files written and the error that ended
      it.  A slide whose narration cannot be written still has its HTML
      written first. */
  function SlidesWritten(entries: seq<Entry>): (seq<SlideFile>, Option<string>)
  {
    match FirstBadNarration(entries, 0)
    case None => (seq(|entries|, i requires 0 <= i < |entries| => FileOf(entries[i])), None)
    case Some(k) =>
      (seq(k, i requires 0 <= i < k => FileOf(entries[i])) + [SlideFile(entries[k].html, None)],
       NarrationError(entries[k].narration))
  }

  /** The loop that writes each slide's HTML and, when it is non-empty, its
      narration. */
  method WriteSlides(entries: seq<Entry>) returns (files: seq<SlideFile>, err: Option<string>)
    ensures (files, err) == SlidesWritten(entries)
  {
    files := [];
    var i := 0;
    while i < |entries|
      invariant 0 <= i <= |entries|
      invariant forall j :: 0 <= j < i ==> NarrationError(entries[j].narration).None?
      invariant files == seq(i, j requires 0 <= j < i => FileOf(entries[j]))
    {
      var narration := entries[i].narration;
      if Truthy(narration) && !narration.JString? {
        FirstBadNarrationAt(entries, i);
        files := files + [SlideFile(entries[i].html, None)];
        return files, Some("write() argument must be str, not " + TypeName(narration));
      }
      var written := if Truthy(narration) then Some(narration.str) else None;
      files := files + [SlideFile(entries[i].html, written)];
      i := i + 1;
    }
    err := None;
  }

  lemma FirstBadNarrationAt(entries: seq<Entry>, i: nat)
    requires i < |entries| && NarrationError(entries[i].narration).Some?
    requires forall j :: 0 <= j < i ==> NarrationError(entries[j].narration).None?
    ensures FirstBadNarration(entries, 0) == Some(i)
  {
    var r := FirstBadNarration(entries, 0);
    assert r.Some?;
  }

  /** When the loop completes, every slide has its HTML written, and a
      narration file exactly when its narration is non-empty, holding it. */
  lemma NarrationWrittenIffNonEmpty(entries: seq<Entry>)
    requires SlidesWritten(entries).1.None?
    ensures var files := SlidesWritten(entries).0;
      && |files| == |entries|
      && forall i :: 0 <= i < |entries| ==>
           && files[i].html == entries[i].html
           && (files[i].narration.Some? <==> Truthy(entries[i].narration))
           && (files[i].narration.Some? ==> entries[i].narration == JString(files[i].narration.value))
  {
  }

  // ---------------------------------------------------------------------------
  // generate_presentation
  // ---------------------------------------------------------------------------

  /** What the skill leaves on disk: the index page once it is written, and
      the slide files written after it. */
  datatype Written = Written(index: Option<string>, slides: seq<SlideFile>)

  function SuccessMessage(outputDir: string): string
  {
    "Presentation generated successfully at " + Paths.Join(outputDir, "presentation")
  }

  /** The checks and reading before anything is written: the missing keys
      `pdf_path`, `output_dir` and `slides`, checked in that order, are
      `ValueError`s; a failure to decode or read the slides is a
      `RuntimeError` with the failure prefix. */
  function ReadSlides(context: Context, parse: Parser): (r: Result<seq<Entry>, Raised>)
    ensures r.Ok? ==> "pdf_path" in context && "output_dir" in context && "slides" in context
  {
    if "pdf_path" !in context then Err(ValueError("PDF path is missing from context"))
    else if "output_dir" !in context then Err(ValueError("Output directory is missing from context"))
    else if "slides" !in context then Err(ValueError("Slides are missing from context"))
    else
      match parse(context["slides"])
      case None => Err(RuntimeError(FailurePrefix + DecodeErrorMessage))
      case Some(v) =>
        match SlideItems(v)
        case Err(e) => Err(RuntimeError(FailurePrefix + e))
        case Ok(items) =>
          match Entries(items)
          case Err(e) => Err(RuntimeError(FailurePrefix + e))
          case Ok(entries) => Ok(entries)
  }

  /** `generate_presentation`: nothing is written when the slides cannot be
      read; otherwise the index page is written, then the slide files. */
  function Generation(context: Context, parse: Parser): (Result<string, Raised>, Written)
  {
    match ReadSlides(context, parse)
    case Err(e) => (Err(e), Written(None, []))
    case Ok(entries) =>
      Finish(context["output_dir"], IndexPage.IndexHtml(Paths.Title(context["pdf_path"]), Htmls(entries)), entries)
  }

  /** After the index page: the slide files are written, and a narration that
      cannot be written is re-raised as a `RuntimeError` with the failure
      prefix. */
  function Finish(outputDir: string, index: string, entries: seq<Entry>): (Result<string, Raised>, Written)
  {
    var written := SlidesWritten(entries);
    if written.1.Some? then (Err(RuntimeError(FailurePrefix + written.1.value)), Written(Some(index), written.0))
    else (Ok(SuccessMessage(outputDir)), Written(Some(index), written.0))
  }

  /** The checks of the skill, step by step. */
  method ReadSlidesStep(context: Context, parse: Parser) returns (r: Result<seq<Entry>, Raised>)
    ensures r == ReadSlides(context, parse)
  {
    if "pdf_path" !in context {
      return Err(ValueError("PDF path is missing from context"));
    }
    if "output_dir" !in context {
      return Err(ValueError("Output directory is missing from context"));
    }
    if "slides" !in context {
      return Err(ValueError("Slides are missing from context"));
    }
    var decoded := parse(context["slides"]);
    if decoded.None? {
      return Err(RuntimeError(FailurePrefix + DecodeErrorMessage));
    }
    var items := SlideItems(decoded.value);
    if items.Err? {
      return Err(RuntimeError(FailurePrefix + items.error));
    }
    var entries := Entries(items.value);
    if entries.Err? {
      return Err(RuntimeError(FailurePrefix + entries.error));
    }
    r := Ok(entries.value);
  }

  /** The skill, step by step: the slides are read, the index page is built
      by its loop, then the slide files are written by theirs. */
  method GeneratePresentation(context: Context, parse: Parser) returns (r: Result<string, Raised>, written: Written)
    ensures (r, written) == Generation(context, parse)
  {
    var entries := ReadSlidesStep(context, parse);
    if entries.Err? {
      return Err(entries.error), Written(None, []);
    }
    var slides, title, outputDir := entries.value, Paths.Title(context["pdf_path"]), context["output_dir"];
    var index := IndexPage.BuildIndexHtml(title, Htmls(slides));
    r, written := FinishStep(outputDir, index, slides);
  }

  /** Writing the slide files once the index page is written. */
  method FinishStep(outputDir: string, index: string, entries: seq<Entry>) returns (r: Result<string, Raised>, written: Written)
    ensures (r, written) == Finish(outputDir, index, entries)
  {
    var files, err := WriteSlides(entries);
    written := Written(Some(index), files);
    match err {
      case Some(e) => r := Err(RuntimeError(FailurePrefix + e));
      case None => r := Ok(SuccessMessage(outputDir));
    }
  }

  /** A failure before the index is written is a `ValueError` for a missing
      key and a `RuntimeError` otherwise, and nothing is written. */
  lemma FailuresBeforeIndex(context: Context, parse: Parser)
    requires Generation(context, parse).1.index.None?
    ensures Generation(context, parse).0.Err?
    ensures Generation(context, parse).1.slides == []
    ensures Generation(context, parse).0.error.ValueError? <==>
      "pdf_path" !in context || "output_dir" !in context || "slides" !in context
  {
  }

  /** Slides that decode to a list of dicts with string HTML and string (or
      empty) narrations give the success message; the index page is built
      from the title of the PDF and the slides' HTML, and every slide's files
      are written. */
  lemma GenerationSucceeds(context: Context, parse: Parser, items: seq<JValue>)
    requires "pdf_path" in context && "output_dir" in context && "slides" in context
    requires parse(context["slides"]) == Some(JArray(items))
    requires forall j :: 0 <= j < |items| ==> SlideEntry(items[j]).Ok?
    requires forall j :: 0 <= j < |items| ==> NarrationError(SlideEntry(items[j]).value.narration).None?
    ensures Entries(items).Ok? && SlidesWritten(Entries(items).value).1.None?
    ensures var entries := Entries(items).value;
      Generation(context, parse) ==
        (Ok(SuccessMessage(context["output_dir"])),
         Written(Some(IndexPage.IndexHtml(Paths.Title(context["pdf_path"]), Htmls(entries))), SlidesWritten(entries).0))
  {
    var entries := Entries(items).value;
    assert FirstBadNarration(entries, 0).None?;
  }

  /** The index page the skill writes shows the counter `1 / N` for its `N`
      slides and holds each slide's div, numbered from 1. */
  lemma IndexOfSlides(title: string, entries: seq<Entry>, i: nat)
    requires i < |entries|
    ensures Contains(IndexPage.IndexHtml(title, Htmls(entries)), IndexPage.CounterText(|entries|))
    ensures Contains(IndexPage.IndexHtml(title, Htmls(entries)), IndexPage.SlideDiv(i, IndexPage.CleanSlideHtml(entries[i].html)))
  {
    IndexPage.IndexCounter(title, Htmls(entries));
    IndexPage.SlideInIndex(title, Htmls(entries), i);
  }
}
