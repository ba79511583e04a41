/**
 * The PDF-to-slides orchestrator: the lenient JSON extraction applied to every
 * agent reply, the per-slide pipeline of agent calls, the batch over all
 * slides, and the top-level conversion.
 *
 * Agents are one abstract function from a prompt to a reply; `Err` stands for
 * an exception raised by the call.  A prompt records what the orchestrator
 * puts into its template, not the template text.
 */
module Orchestrator {
  import opened Wrappers
  import opened Text
  import opened Json
  import Patterns
  import Paths
  import ContextStore

  // ---------------------------------------------------------------------------
  // _extract_json_from_response
  // ---------------------------------------------------------------------------

  /** The reply itself when it parses; else the stripped interior of its first
      fenced block (tagged `json` or untagged) when that parses; else the reply
      unchanged.  Nothing is raised. */
  function ExtractJsonFromResponse(parse: Parser, text: string): (r: string)
    ensures IsValidJson(parse, r) || r == text
    ensures IsValidJson(parse, text) ==> r == text
  {
    if IsValidJson(parse, text) then text
    else
      Patterns.PlainTagLists();
      match Patterns.FencedBody(text, Patterns.JsonTags)
      case Some(body) => if IsValidJson(parse, body) then body else text
      case None => text
  }

  /** A reply that does not parse and holds no fenced block, for instance
      one without any fence, comes back unchanged; nothing is raised. */
  lemma ExtractUnfenced(parse: Parser, text: string)
    requires !IsValidJson(parse, text)
    ensures Patterns.NoBlock(text) ==> ExtractJsonFromResponse(parse, text) == text
    ensures !Contains(text, Patterns.Fence) ==> ExtractJsonFromResponse(parse, text) == text
  {
    Patterns.PlainTagLists();
    if !Contains(text, Patterns.Fence) {
      Patterns.NoFenceNoBlock(text, Patterns.JsonTags);
    }
  }

  /** A reply that is one `json` or untagged block answers with the block's
      stripped interior when that parses, and with itself when it does not. */
  lemma ExtractFromBlock(parse: Parser, t: string, x: string)
    requires t == "json" || t == ""
    requires !Contains(x, Patterns.Fence)
    requires !IsValidJson(parse, Patterns.Fence + t + "\n" + x + "\n" + Patterns.Fence)
    ensures IsValidJson(parse, Strip(x)) ==>
      ExtractJsonFromResponse(parse, Patterns.Fence + t + "\n" + x + "\n" + Patterns.Fence) == Strip(x)
    ensures !IsValidJson(parse, Strip(x)) ==>
      ExtractJsonFromResponse(parse, Patterns.Fence + t + "\n" + x + "\n" + Patterns.Fence)
        == Patterns.Fence + t + "\n" + x + "\n" + Patterns.Fence
  {
    Patterns.PlainTagLists();
    Patterns.FencedBodyOfBlock(t, x, Patterns.JsonTags);
  }

  /** Extraction is idempotent: its result either parses, and is then returned
      as it is, or is the original reply, which takes the same path again. */
  lemma ExtractIdempotent(parse: Parser, text: string)
    ensures ExtractJsonFromResponse(parse, ExtractJsonFromResponse(parse, text)) == ExtractJsonFromResponse(parse, text)
  {
  }

  // ---------------------------------------------------------------------------
  // Agents
  // ---------------------------------------------------------------------------

  /** One processed slide: `{SlideNumber, Title, SlideHtml, Narration}`. */
  datatype SlideResult = SlideResult(slideNumber: JValue, title: JValue, slideHtml: string, narration: string)

  /** What each agent is asked, by the values the orchestrator fills in. */
  datatype Prompt =
    | AnalysisPrompt(pdfContent: string)
    | ThemePrompt(slide: JValue, baseTheme: JValue)
    | VisualizationPrompt(data: JValue, slide: JValue)
    | ImagePrompt(slide: JValue, keywords: JValue)
    | SlidePrompt(slide: JValue, theme: string, visualization: string, imageUrl: string)
    | NarrationPrompt(slideHtml: string, slide: JValue)
    | PresentationPrompt(pdfPath: string, outputDir: string, baseTheme: JValue, slides: seq<SlideResult>)

  /** An agent call: the reply's content, or the message of the exception it raised. */
  type Agent = Prompt -> Result<string, string>

  // ---------------------------------------------------------------------------
  // process_single_slide
  // ---------------------------------------------------------------------------

  /** The prompts sent for one slide, in order, and what the call returns.
      The runs below take the orchestrator's JSON extraction as `extractJson`;
      the conversion passes `ExtractJsonFromResponse` with its parser. */
  datatype SlideRun = SlideRun(sent: seq<Prompt>, outcome: Result<SlideResult, string>)

  predicate HasData(fields: seq<(string, JValue)>)
  {
    Truthy(GetOr(fields, "HasData", JBool(false)))
  }

  predicate NeedsImage(fields: seq<(string, JValue)>)
  {
    Truthy(GetOr(fields, "NeedsImage", JBool(false)))
  }

  function VisualizationRequest(slide: JValue): Prompt
    requires slide.JObject?
  {
    VisualizationPrompt(GetOr(slide.fields, "Data", JString("")), slide)
  }

  function ImageRequest(slide: JValue): Prompt
    requires slide.JObject?
  {
    ImagePrompt(slide, GetOr(slide.fields, "ImageKeywords", JString("")))
  }

  /** The optional stages for a slide (visualization, then image), in order. */
  function OptionalStages(slide: JValue): (ps: seq<Prompt>)
    requires slide.JObject?
    ensures |ps| <= 2
  {
    (if HasData(slide.fields) then [VisualizationRequest(slide)] else [])
    + (if NeedsImage(slide.fields) then [ImageRequest(slide)] else [])
  }

  /** The run of one slide: theme, then (when asked for) visualization and
      image, then the slide's HTML, then its narration; the first failing call
      ends the run with its error. */
  function RunSlide(slide: JValue, baseTheme: JValue, extractJson: string -> string, agent: Agent): SlideRun
  {
    var p0 := ThemePrompt(slide, baseTheme);
    match agent(p0)
    case Err(e) => SlideRun([p0], Err(e))
    case Ok(themeReply) =>
      if !slide.JObject? then SlideRun([p0], Err(NoGetMessage(slide)))
      else RunVisualization(slide, extractJson(themeReply), agent, [p0])
  }

  /** The rest of a run from the visualization stage on, after `sent`. */
  function RunVisualization(slide: JValue, theme: string, agent: Agent, sent: seq<Prompt>): SlideRun
    requires slide.JObject?
  {
    if HasData(slide.fields) then
      var s := sent + [VisualizationRequest(slide)];
      match agent(VisualizationRequest(slide))
      case Err(e) => SlideRun(s, Err(e))
      case Ok(viz) => RunImage(slide, theme, viz, agent, s)
    else RunImage(slide, theme, "", agent, sent)
  }

  /** The rest of a run from the image stage on, after `sent`. */
  function RunImage(slide: JValue, theme: string, viz: string, agent: Agent, sent: seq<Prompt>): SlideRun
    requires slide.JObject?
  {
    if NeedsImage(slide.fields) then
      var s := sent + [ImageRequest(slide)];
      match agent(ImageRequest(slide))
      case Err(e) => SlideRun(s, Err(e))
      case Ok(img) => RunFinal(slide, theme, viz, Strip(img), agent, s)
    else RunFinal(slide, theme, viz, "", agent, sent)
  }

  /** The last two calls of a run, the slide's HTML and its narration, after `sent`. */
  function RunFinal(slide: JValue, theme: string, viz: string, imageUrl: string, agent: Agent, sent: seq<Prompt>): SlideRun
    requires slide.JObject?
  {
    var p3 := SlidePrompt(slide, theme, viz, imageUrl);
    var s3 := sent + [p3];
    match agent(p3)
    case Err(e) => SlideRun(s3, Err(e))
    case Ok(html) =>
      var p4 := NarrationPrompt(html, slide);
      var s4 := s3 + [p4];
      match agent(p4)
      case Err(e) => SlideRun(s4, Err(e))
      case Ok(narration) =>
        SlideRun(s4, Ok(SlideResult(
          GetOr(slide.fields, "SlideNumber", JInt(0)), GetOr(slide.fields, "Title", JString("")), html, narration)))
  }

  /** `process_single_slide`, stage by stage over its locals; `sent` lists the
      prompts in the order they go out. */
  method ProcessSingleSlide(slide: JValue, baseTheme: JValue, extractJson: string -> string, agent: Agent)
    returns (result: Result<SlideResult, string>, sent: seq<Prompt>)
    ensures SlideRun(sent, result) == RunSlide(slide, baseTheme, extractJson, agent)
  {
    ghost var run := RunSlide(slide, baseTheme, extractJson, agent);
    sent := [ThemePrompt(slide, baseTheme)];
    var themeReply := agent(ThemePrompt(slide, baseTheme));
    if themeReply.Err? {
      return Err(themeReply.error), sent;
    }
    var themeResult := extractJson(themeReply.value);
    if !slide.JObject? {
      return Err(NoGetMessage(slide)), sent;
    }
    assert run == RunVisualization(slide, themeResult, agent, sent);
    var visualization := "";
    if HasData(slide.fields) {
      sent := sent + [VisualizationRequest(slide)];
      var vizReply := agent(VisualizationRequest(slide));
      if vizReply.Err? {
        return Err(vizReply.error), sent;
      }
      visualization := vizReply.value;
    }
    assert run == RunImage(slide, themeResult, visualization, agent, sent);
    var imageUrl := "";
    if NeedsImage(slide.fields) {
      sent := sent + [ImageRequest(slide)];
      var imgReply := agent(ImageRequest(slide));
      if imgReply.Err? {
        return Err(imgReply.error), sent;
      }
      imageUrl := Strip(imgReply.value);
    }
    assert run == RunFinal(slide, themeResult, visualization, imageUrl, agent, sent);
    var slidePrompt := SlidePrompt(slide, themeResult, visualization, imageUrl);
    sent := sent + [slidePrompt];
    var slideReply := agent(slidePrompt);
    if slideReply.Err? {
      return Err(slideReply.error), sent;
    }
    var slideHtml := slideReply.value;
    sent := sent + [NarrationPrompt(slideHtml, slide)];
    var narrationReply := agent(NarrationPrompt(slideHtml, slide));
    if narrationReply.Err? {
      return Err(narrationReply.error), sent;
    }
    result := Ok(SlideResult(GetOr(slide.fields, "SlideNumber", JInt(0)), GetOr(slide.fields, "Title", JString("")),
      slideHtml, narrationReply.value));
  }

  /** The theme, visualization and image URL a run hands to its last two calls. */
  function ThemeOf(slide: JValue, baseTheme: JValue, extractJson: string -> string, agent: Agent): string
    requires agent(ThemePrompt(slide, baseTheme)).Ok?
  {
    extractJson(agent(ThemePrompt(slide, baseTheme)).value)
  }

  function VizOf(slide: JValue, agent: Agent): string
    requires slide.JObject?
  {
    var r := agent(VisualizationRequest(slide));
    if HasData(slide.fields) && r.Ok? then r.value else ""
  }

  function ImageUrlOf(slide: JValue, agent: Agent): string
    requires slide.JObject?
  {
    var r := agent(ImageRequest(slide));
    if NeedsImage(slide.fields) && r.Ok? then Strip(r.value) else ""
  }

  /** Every prompt in `ps` was answered. */
  predicate AllAnswered(agent: Agent, ps: seq<Prompt>)
  {
    forall k :: 0 <= k < |ps| ==> agent(ps[k]).Ok?
  }

  lemma AnsweredOne(agent: Agent, p: Prompt)
    requires agent(p).Ok?
    ensures AllAnswered(agent, [p])
  {
  }

  lemma AnsweredConcat(agent: Agent, a: seq<Prompt>, b: seq<Prompt>)
    requires AllAnswered(agent, a) && AllAnswered(agent, b)
    ensures AllAnswered(agent, a + b)
  {
    forall k | 0 <= k < |a + b| ensures agent((a + b)[k]).Ok? {
      if k < |a| { assert (a + b)[k] == a[k]; } else { assert (a + b)[k] == b[k - |a|]; }
    }
  }

  /** Once the optional stages have passed, the run is the last two calls
      after the theme prompt and the optional prompts. */
  lemma OptionalStagesPassed(slide: JValue, theme: string, agent: Agent, sent: seq<Prompt>)
    requires slide.JObject?
    requires HasData(slide.fields) ==> agent(VisualizationRequest(slide)).Ok?
    requires NeedsImage(slide.fields) ==> agent(ImageRequest(slide)).Ok?
    ensures AllAnswered(agent, OptionalStages(slide))
    ensures RunVisualization(slide, theme, agent, sent)
         == RunFinal(slide, theme, VizOf(slide, agent), ImageUrlOf(slide, agent), agent, sent + OptionalStages(slide))
  {
    var v := if HasData(slide.fields) then [VisualizationRequest(slide)] else [];
    var i := if NeedsImage(slide.fields) then [ImageRequest(slide)] else [];
    var viz, url := VizOf(slide, agent), ImageUrlOf(slide, agent);
    var s1, s2 := sent + v, sent + v + i;
    if HasData(slide.fields) {
      assert RunVisualization(slide, theme, agent, sent) == RunImage(slide, theme, viz, agent, s1);
    } else {
      assert s1 == sent;
    }
    if NeedsImage(slide.fields) {
      assert RunImage(slide, theme, viz, agent, s1) == RunFinal(slide, theme, viz, url, agent, s2);
    } else {
      assert s2 == s1;
    }
    assert OptionalStages(slide) == v + i;
    ConcatAssoc(sent, v, i);
    AnsweredConcat(agent, v, i);
  }

  /** The last two calls, when both are answered. */
  lemma FinalPassed(slide: JValue, theme: string, viz: string, imageUrl: string, agent: Agent, sent: seq<Prompt>)
    requires slide.JObject?
    requires RunFinal(slide, theme, viz, imageUrl, agent, sent).outcome.Ok?
    ensures var p3 := SlidePrompt(slide, theme, viz, imageUrl);
      var run := RunFinal(slide, theme, viz, imageUrl, agent, sent);
      && agent(p3).Ok?
      && agent(NarrationPrompt(agent(p3).value, slide)).Ok?
      && run.sent == sent + [p3, NarrationPrompt(agent(p3).value, slide)]
      && AllAnswered(agent, [p3, NarrationPrompt(agent(p3).value, slide)])
      && run.outcome.value == SlideResult(GetOr(slide.fields, "SlideNumber", JInt(0)), GetOr(slide.fields, "Title", JString("")),
           agent(p3).value, agent(NarrationPrompt(agent(p3).value, slide)).value)
  {
    var p3 := SlidePrompt(slide, theme, viz, imageUrl);
    assert agent(p3).Ok?;
    var p4 := NarrationPrompt(agent(p3).value, slide);
    assert sent + [p3] + [p4] == sent + [p3, p4];
  }

  /** A successful run sends exactly: the theme prompt, the optional stages in
      order, the slide prompt built from the extracted theme and the optional
      stages' replies (the image URL stripped, "" for a skipped stage), and the
      narration prompt built from the slide's HTML.  Every prompt was answered.
      The result carries the slide's number (default 0) and title (default
      ""), that HTML and that narration. */
  lemma RunSlideSucceeds(slide: JValue, baseTheme: JValue, extractJson: string -> string, agent: Agent)
    requires RunSlide(slide, baseTheme, extractJson, agent).outcome.Ok?
    ensures slide.JObject? && agent(ThemePrompt(slide, baseTheme)).Ok?
    ensures HasData(slide.fields) ==> agent(VisualizationRequest(slide)).Ok?
    ensures NeedsImage(slide.fields) ==> agent(ImageRequest(slide)).Ok?
    ensures var run := RunSlide(slide, baseTheme, extractJson, agent);
      var r := run.outcome.value;
      var p3 := SlidePrompt(slide, ThemeOf(slide, baseTheme, extractJson, agent), VizOf(slide, agent), ImageUrlOf(slide, agent));
      && run.sent == [ThemePrompt(slide, baseTheme)] + OptionalStages(slide) + [p3, NarrationPrompt(r.slideHtml, slide)]
      && AllAnswered(agent, run.sent)
      && r.slideHtml == agent(p3).value
      && r.narration == agent(NarrationPrompt(r.slideHtml, slide)).value
      && r.slideNumber == GetOr(slide.fields, "SlideNumber", JInt(0))
      && r.title == GetOr(slide.fields, "Title", JString(""))
  {
    var p0 := ThemePrompt(slide, baseTheme);
    assert agent(p0).Ok? && slide.JObject?;
    var theme := ThemeOf(slide, baseTheme, extractJson, agent);
    assert RunSlide(slide, baseTheme, extractJson, agent) == RunVisualization(slide, theme, agent, [p0]);
    if HasData(slide.fields) {
      assert agent(VisualizationRequest(slide)).Ok?;
      assert NeedsImage(slide.fields) ==> agent(ImageRequest(slide)).Ok?;
    } else {
      assert NeedsImage(slide.fields) ==> agent(ImageRequest(slide)).Ok?;
    }
    OptionalStagesPassed(slide, theme, agent, [p0]);
    var viz, img := VizOf(slide, agent), ImageUrlOf(slide, agent);
    var before := [p0] + OptionalStages(slide);
    FinalPassed(slide, theme, viz, img, agent, before);
    var p3 := SlidePrompt(slide, theme, viz, img);
    var p4 := NarrationPrompt(agent(p3).value, slide);
    AnsweredOne(agent, p0);
    AnsweredConcat(agent, [p0], OptionalStages(slide));
    AnsweredConcat(agent, before, [p3, p4]);
  }

  /** `run` failed after `sent`: it sent at most `most` more prompts, every one
      of them but the last was answered, and the run ends with the error the
      last one raised. */
  ghost predicate FailedAfter(agent: Agent, sent: seq<Prompt>, run: SlideRun, most: nat)
  {
    && |sent| < |run.sent| <= |sent| + most
    && run.sent[..|sent|] == sent
    && AllAnswered(agent, run.sent[|sent|..|run.sent| - 1])
    && agent(run.sent[|run.sent| - 1]).Err?
    && run.outcome == Err(agent(run.sent[|run.sent| - 1]).error)
  }

  /** An answered prompt before a failed rest is part of the failed rest. */
  lemma FailedAfterAnswered(agent: Agent, sent: seq<Prompt>, p: Prompt, run: SlideRun, most: nat)
    requires agent(p).Ok? && FailedAfter(agent, sent + [p], run, most)
    ensures FailedAfter(agent, sent, run, most + 1)
  {
    var k, n := |sent|, |run.sent|;
    assert run.sent[..k] == run.sent[..k + 1][..k] == sent;
    assert run.sent[k] == run.sent[..k + 1][k] == p;
    var t, u := run.sent[k..n - 1], run.sent[k + 1..n - 1];
    forall j | 0 <= j < |t| ensures agent(t[j]).Ok? {
      if j > 0 {
        assert t[j] == u[j - 1];
      }
    }
  }

  lemma FailedOne(agent: Agent, sent: seq<Prompt>, p: Prompt, run: SlideRun, most: nat)
    requires 1 <= most && agent(p).Err? && run == SlideRun(sent + [p], Err(agent(p).error))
    ensures FailedAfter(agent, sent, run, most)
  {
    assert run.sent[..|sent|] == sent;
  }

  lemma FinalFails(slide: JValue, theme: string, viz: string, imageUrl: string, agent: Agent, sent: seq<Prompt>)
    requires slide.JObject? && RunFinal(slide, theme, viz, imageUrl, agent, sent).outcome.Err?
    ensures FailedAfter(agent, sent, RunFinal(slide, theme, viz, imageUrl, agent, sent), 2)
  {
    var run := RunFinal(slide, theme, viz, imageUrl, agent, sent);
    var p3 := SlidePrompt(slide, theme, viz, imageUrl);
    if agent(p3).Err? {
      FailedOne(agent, sent, p3, run, 2);
    } else {
      FailedOne(agent, sent + [p3], NarrationPrompt(agent(p3).value, slide), run, 1);
      FailedAfterAnswered(agent, sent, p3, run, 1);
    }
  }

  lemma ImageFails(slide: JValue, theme: string, viz: string, agent: Agent, sent: seq<Prompt>)
    requires slide.JObject? && RunImage(slide, theme, viz, agent, sent).outcome.Err?
    ensures FailedAfter(agent, sent, RunImage(slide, theme, viz, agent, sent), 3)
  {
    var run := RunImage(slide, theme, viz, agent, sent);
    var p := ImageRequest(slide);
    if !NeedsImage(slide.fields) {
      FinalFails(slide, theme, viz, "", agent, sent);
    } else if agent(p).Err? {
      FailedOne(agent, sent, p, run, 3);
    } else {
      FinalFails(slide, theme, viz, Strip(agent(p).value), agent, sent + [p]);
      FailedAfterAnswered(agent, sent, p, run, 2);
    }
  }

  lemma VisualizationFails(slide: JValue, theme: string, agent: Agent, sent: seq<Prompt>)
    requires slide.JObject? && RunVisualization(slide, theme, agent, sent).outcome.Err?
    ensures FailedAfter(agent, sent, RunVisualization(slide, theme, agent, sent), 4)
  {
    var run := RunVisualization(slide, theme, agent, sent);
    var p := VisualizationRequest(slide);
    if !HasData(slide.fields) {
      ImageFails(slide, theme, "", agent, sent);
    } else if agent(p).Err? {
      FailedOne(agent, sent, p, run, 4);
    } else {
      ImageFails(slide, theme, agent(p).value, agent, sent + [p]);
      FailedAfterAnswered(agent, sent, p, run, 3);
    }
  }

  /** A failed run stops at its first failing call: every earlier prompt was
      answered and the error is the last prompt's, unless the slide is not a
      dict, which fails right after the theme prompt. */
  lemma RunSlideFails(slide: JValue, baseTheme: JValue, extractJson: string -> string, agent: Agent)
    requires RunSlide(slide, baseTheme, extractJson, agent).outcome.Err?
    ensures var run := RunSlide(slide, baseTheme, extractJson, agent);
      1 <= |run.sent| <= 5
      && run.sent[0] == ThemePrompt(slide, baseTheme)
      && AllAnswered(agent, run.sent[..|run.sent| - 1])
      && (if agent(run.sent[|run.sent| - 1]).Err?
          then run.outcome.error == agent(run.sent[|run.sent| - 1]).error
          else !slide.JObject? && |run.sent| == 1 && run.outcome.error == NoGetMessage(slide))
  {
    var run := RunSlide(slide, baseTheme, extractJson, agent);
    var p0 := ThemePrompt(slide, baseTheme);
    if agent(p0).Err? || !slide.JObject? {
      assert run.sent == [p0];
    } else {
      VisualizationFails(slide, extractJson(agent(p0).value), agent, [p0]);
      assert [] + [p0] == [p0];
      FailedAfterAnswered(agent, [], p0, run, 4);
      assert run.sent[0] == run.sent[..1][0] == p0;
      assert run.sent[..|run.sent| - 1] == run.sent[0..|run.sent| - 1];
    }
  }

  /** The prompts a run may send for a slide: its theme, slide and narration
      prompts, and a visualization or image prompt only when the slide asks for
      that stage. */
  predicate OwnPrompt(slide: JValue, p: Prompt)
  {
    match p
    case ThemePrompt(s, _) => s == slide
    case VisualizationPrompt(_, s) => s == slide && slide.JObject? && HasData(slide.fields) && p == VisualizationRequest(slide)
    case ImagePrompt(s, _) => s == slide && slide.JObject? && NeedsImage(slide.fields) && p == ImageRequest(slide)
    case SlidePrompt(s, _, _, _) => s == slide
    case NarrationPrompt(_, s) => s == slide
    case _ => false
  }

  predicate AllOwn(slide: JValue, ps: seq<Prompt>)
  {
    forall k :: 0 <= k < |ps| ==> OwnPrompt(slide, ps[k])
  }

  /** Appending one of the slide's own prompts keeps every prompt the slide's own. */
  lemma OwnSnoc(slide: JValue, ps: seq<Prompt>, p: Prompt)
    requires AllOwn(slide, ps) && OwnPrompt(slide, p)
    ensures AllOwn(slide, ps + [p])
  {
    forall k | 0 <= k < |ps + [p]| ensures OwnPrompt(slide, (ps + [p])[k]) {
      if k < |ps| { assert (ps + [p])[k] == ps[k]; }
    }
  }

  lemma FinalOwn(slide: JValue, theme: string, viz: string, imageUrl: string, agent: Agent, sent: seq<Prompt>)
    requires slide.JObject? && AllOwn(slide, sent)
    ensures AllOwn(slide, RunFinal(slide, theme, viz, imageUrl, agent, sent).sent)
  {
    var p3 := SlidePrompt(slide, theme, viz, imageUrl);
    OwnSnoc(slide, sent, p3);
    if agent(p3).Ok? {
      OwnSnoc(slide, sent + [p3], NarrationPrompt(agent(p3).value, slide));
    }
  }

  lemma ImageOwn(slide: JValue, theme: string, viz: string, agent: Agent, sent: seq<Prompt>)
    requires slide.JObject? && AllOwn(slide, sent)
    ensures AllOwn(slide, RunImage(slide, theme, viz, agent, sent).sent)
  {
    var p := ImageRequest(slide);
    if !NeedsImage(slide.fields) {
      FinalOwn(slide, theme, viz, "", agent, sent);
    } else {
      OwnSnoc(slide, sent, p);
      if agent(p).Ok? {
        FinalOwn(slide, theme, viz, Strip(agent(p).value), agent, sent + [p]);
      }
    }
  }

  lemma VisualizationOwn(slide: JValue, theme: string, agent: Agent, sent: seq<Prompt>)
    requires slide.JObject? && AllOwn(slide, sent)
    ensures AllOwn(slide, RunVisualization(slide, theme, agent, sent).sent)
  {
    var p := VisualizationRequest(slide);
    if !HasData(slide.fields) {
      ImageOwn(slide, theme, "", agent, sent);
    } else {
      OwnSnoc(slide, sent, p);
      if agent(p).Ok? {
        ImageOwn(slide, theme, agent(p).value, agent, sent + [p]);
      }
    }
  }

  /** A stage that is not asked for is never run: no visualization prompt goes
      out for a slide without a truthy `HasData`, no image prompt for one
      without a truthy `NeedsImage`, and every prompt is about this slide. */
  lemma SkippedStagesNotSent(slide: JValue, baseTheme: JValue, extractJson: string -> string, agent: Agent)
    ensures AllOwn(slide, RunSlide(slide, baseTheme, extractJson, agent).sent)
  {
    var p0 := ThemePrompt(slide, baseTheme);
    assert AllOwn(slide, [p0]);
    if agent(p0).Ok? && slide.JObject? {
      VisualizationOwn(slide, extractJson(agent(p0).value), agent, [p0]);
    }
  }

  // ---------------------------------------------------------------------------
  // process_slides_in_parallel
  // ---------------------------------------------------------------------------

  /** The outcome of each slide's run, in input order. */
  function Outcomes(slides: seq<JValue>, baseTheme: JValue, extractJson: string -> string, agent: Agent)
    : (os: seq<Result<SlideResult, string>>)
    ensures |os| == |slides|
    ensures forall i :: 0 <= i < |slides| ==> os[i] == RunSlide(slides[i], baseTheme, extractJson, agent).outcome
  {
    seq(|slides|, i requires 0 <= i < |slides| => RunSlide(slides[i], baseTheme, extractJson, agent).outcome)
  }

  /** `asyncio.gather` read as an order-preserving map: the results in input
      order, or the error of the first outcome (in list order) that failed. */
  function Gather<T>(outcomes: seq<Result<T, string>>): Result<seq<T>, string>
    decreases |outcomes|
  {
    if |outcomes| == 0 then Ok([])
    else
      match Gather(outcomes[..|outcomes| - 1])
      case Err(e) => Err(e)
      case Ok(rs) =>
        match outcomes[|outcomes| - 1]
        case Err(e) => Err(e)
        case Ok(r) => Ok(rs + [r])
  }

  /** Once a prefix fails, the whole batch fails with the same error. */
  lemma {:induction false} GatherFailedPrefix<T>(outcomes: seq<Result<T, string>>, k: nat)
    requires k <= |outcomes| && Gather(outcomes[..k]).Err?
    ensures Gather(outcomes) == Gather(outcomes[..k])
    decreases |outcomes| - k
  {
    if k < |outcomes| {
      assert outcomes[..k + 1][..k] == outcomes[..k];
      GatherFailedPrefix(outcomes, k + 1);
    } else {
      assert outcomes[..k] == outcomes;
    }
  }

  /** `process_slides_in_parallel`: one task per slide, gathered in order. */
  method ProcessSlidesInParallel(slides: seq<JValue>, baseTheme: JValue, extractJson: string -> string, agent: Agent)
    returns (results: Result<seq<SlideResult>, string>)
    ensures results == Gather(Outcomes(slides, baseTheme, extractJson, agent))
  {
    ghost var outcomes := Outcomes(slides, baseTheme, extractJson, agent);
    var done: seq<SlideResult> := [];
    var i := 0;
    while i < |slides|
      invariant i <= |slides|
      invariant Gather(outcomes[..i]) == Ok(done)
    {
      var r, sent := ProcessSingleSlide(slides[i], baseTheme, extractJson, agent);
      assert outcomes[i] == r;
      assert outcomes[..i + 1][..i] == outcomes[..i];
      if r.Err? {
        GatherFailedPrefix(outcomes, i + 1);
        return Err(r.error);
      }
      done := done + [r.value];
      i := i + 1;
    }
    assert outcomes[..i] == outcomes;
    results := Ok(done);
  }

  /** A batch succeeds exactly when every outcome does, and then gives one
      result per outcome, the i-th from the i-th; a failed batch reports the
      first failed outcome's error. */
  lemma {:induction false} GatherFacts<T>(outcomes: seq<Result<T, string>>)
    ensures Gather(outcomes).Ok? <==> forall i :: 0 <= i < |outcomes| ==> outcomes[i].Ok?
    ensures Gather(outcomes).Ok? ==>
              |Gather(outcomes).value| == |outcomes|
              && forall i :: 0 <= i < |outcomes| ==> outcomes[i] == Ok(Gather(outcomes).value[i])
    ensures forall i :: 0 <= i < |outcomes| && outcomes[i].Err? && (forall j :: 0 <= j < i ==> outcomes[j].Ok?)
              ==> Gather(outcomes) == Err(outcomes[i].error)
    decreases |outcomes|
  {
    if |outcomes| > 0 {
      var init := outcomes[..|outcomes| - 1];
      GatherFacts(init);
      assert forall i :: 0 <= i < |init| ==> init[i] == outcomes[i];
    }
  }

  /** The batch over the slides: one result per slide, the i-th from the
      i-th slide's run, or the error of the first slide whose run fails. */
  lemma SlidesGathered(slides: seq<JValue>, baseTheme: JValue, extractJson: string -> string, agent: Agent)
    ensures var g := Gather(Outcomes(slides, baseTheme, extractJson, agent));
      (g.Ok? <==> forall i :: 0 <= i < |slides| ==> RunSlide(slides[i], baseTheme, extractJson, agent).outcome.Ok?)
      && (g.Ok? ==> |g.value| == |slides|
                    && forall i :: 0 <= i < |slides| ==> RunSlide(slides[i], baseTheme, extractJson, agent).outcome == Ok(g.value[i]))
  {
    GatherFacts(Outcomes(slides, baseTheme, extractJson, agent));
  }

  // ---------------------------------------------------------------------------
  // convert_pdf_to_slides_async
  // ---------------------------------------------------------------------------

  /** The `AttributeError` the conversion meets at its first step: the extraction
      skill has `extract_and_chunk_content` but no `extract_content`. */
  const MissingExtractContent: string := "'PDFExtractionSkill' object has no attribute 'extract_content'"

  /** The conversion as written: the first step looks up a method the extraction
      skill does not have, the exception is caught, and its message is returned;
      no agent is called and nothing is stored. */
  method ConvertAsWritten(cm: ContextStore.ContextManager<string>, pdfPath: string, outputDir: string, baseTheme: JValue,
                          extract: string -> Result<string, string>, parse: Parser, agent: Agent)
    returns (message: string)
    ensures message == "Error: " + MissingExtractContent
  {
    message := "Error: " + MissingExtractContent;
  }

  /** `self._extract_json_from_response` with the given parser. */
  function JsonOf(parse: Parser): string -> string
  {
    (text: string) => ExtractJsonFromResponse(parse, text)
  }

  /** Stands for the message of the `json.JSONDecodeError` raised on an
      analysis that does not decode; the abstract parser does not give it. */
  const InvalidJsonMessage: string := "analysis is not valid JSON"

  function SuccessMessage(outputDir: string): string
  {
    "Presentation generated successfully at " + Paths.Join(outputDir, "presentation")
  }

  /** The stored analysis and the slides of an intended conversion. */
  datatype Converted = Converted(pdfContent: string, analysis: string, slides: seq<SlideResult>)

  /** The conversion with its first step calling `extract_and_chunk_content`
      (given here as `extract`): extract, analyse, extract the JSON of the
      analysis, decode it, process every slide, then call the presentation
      agent; the first failure ends it. */
  function Conversion(pdfPath: string, outputDir: string, baseTheme: JValue,
                      extract: string -> Result<string, string>, parse: Parser, agent: Agent): Result<Converted, string>
  {
    match extract(pdfPath)
    case Err(e) => Err(e)
    case Ok(content) =>
      match agent(AnalysisPrompt(content))
      case Err(e) => Err(e)
      case Ok(reply) => ConversionOfAnalysis(pdfPath, outputDir, baseTheme, parse, agent, content, ExtractJsonFromResponse(parse, reply))
  }

  /** The conversion from the decoding of the stored analysis on. */
  function ConversionOfAnalysis(pdfPath: string, outputDir: string, baseTheme: JValue, parse: Parser, agent: Agent,
                                content: string, analysis: string): Result<Converted, string>
  {
    match parse(analysis)
    case None => Err(InvalidJsonMessage)
    case Some(v) =>
      match Iterate(v)
      case Err(e) => Err(e)
      case Ok(items) =>
        ConversionOfSlides(pdfPath, outputDir, baseTheme, agent, content, analysis,
          Gather(Outcomes(items, baseTheme, JsonOf(parse), agent)))
  }

  /** The conversion from the gathered slides on. */
  function ConversionOfSlides(pdfPath: string, outputDir: string, baseTheme: JValue, agent: Agent,
                              content: string, analysis: string, gathered: Result<seq<SlideResult>, string>)
    : Result<Converted, string>
  {
    match gathered
    case Err(e) => Err(e)
    case Ok(results) =>
      match agent(PresentationPrompt(pdfPath, outputDir, baseTheme, results))
      case Err(e) => Err(e)
      case Ok(_) => Ok(Converted(content, analysis, results))
  }

  /** The store after the conversion, step by step: the extracted content is
      stored once extraction succeeds, the analysis once the analyzer answers,
      and the serialised slides once every slide is processed, whatever
      happens to the steps after each. */
  function ConversionStore(store: map<string, string>, pdfPath: string, baseTheme: JValue,
                           extract: string -> Result<string, string>, parse: Parser, agent: Agent,
                           serialize: seq<SlideResult> -> string): map<string, string>
  {
    match extract(pdfPath)
    case Err(_) => store
    case Ok(content) =>
      match agent(AnalysisPrompt(content))
      case Err(_) => store["pdf_content" := content]
      case Ok(reply) =>
        var analysis := ExtractJsonFromResponse(parse, reply);
        AnalysisStore(store["pdf_content" := content]["content_analysis" := analysis], baseTheme, parse, agent, serialize, analysis)
  }

  /** The store after the analysis is stored: the serialised slides are added
      once the analysis decodes and every slide is processed. */
  function AnalysisStore(store: map<string, string>, baseTheme: JValue, parse: Parser, agent: Agent,
                         serialize: seq<SlideResult> -> string, analysis: string): map<string, string>
  {
    match parse(analysis)
    case None => store
    case Some(v) =>
      match Iterate(v)
      case Err(_) => store
      case Ok(items) => SlidesStore(store, serialize, Gather(Outcomes(items, baseTheme, JsonOf(parse), agent)))
  }

  function SlidesStore(store: map<string, string>, serialize: seq<SlideResult> -> string,
                       gathered: Result<seq<SlideResult>, string>): map<string, string>
  {
    match gathered
    case Err(_) => store
    case Ok(results) => store["slides" := serialize(results)]
  }

  /** After the analysis only the slides key can change, and it changes
      exactly when the slides are processed. */
  lemma AnalysisStoreKeeps(store: map<string, string>, baseTheme: JValue, parse: Parser, agent: Agent,
                           serialize: seq<SlideResult> -> string, analysis: string)
    ensures var r := AnalysisStore(store, baseTheme, parse, agent, serialize, analysis);
      r.Keys == store.Keys || r.Keys == store.Keys + {"slides"}
    ensures var r := AnalysisStore(store, baseTheme, parse, agent, serialize, analysis);
      forall key :: key in store && key != "slides" ==> r[key] == store[key]
  {
  }

  /** Only the three conversion keys change. */
  lemma ConversionStoreKeeps(store: map<string, string>, pdfPath: string, baseTheme: JValue,
                             extract: string -> Result<string, string>, parse: Parser, agent: Agent,
                             serialize: seq<SlideResult> -> string)
    ensures var r := ConversionStore(store, pdfPath, baseTheme, extract, parse, agent, serialize);
      forall key :: key != "pdf_content" && key != "content_analysis" && key != "slides" ==>
        (key in r <==> key in store) && (key in r ==> r[key] == store[key])
  {
    match extract(pdfPath)
    case Err(_) =>
    case Ok(content) =>
      match agent(AnalysisPrompt(content))
      case Err(_) =>
      case Ok(reply) =>
        var analysis := ExtractJsonFromResponse(parse, reply);
        var written := store["pdf_content" := content]["content_analysis" := analysis];
        assert ConversionStore(store, pdfPath, baseTheme, extract, parse, agent, serialize)
            == AnalysisStore(written, baseTheme, parse, agent, serialize, analysis);
        AnalysisStoreKeeps(written, baseTheme, parse, agent, serialize, analysis);
  }

  /** A failed extraction changes nothing; the content is stored exactly when
      extraction succeeds, and when the analyzer then fails nothing else is
      stored. */
  lemma ConversionStoreEarly(store: map<string, string>, pdfPath: string, baseTheme: JValue,
                             extract: string -> Result<string, string>, parse: Parser, agent: Agent,
                             serialize: seq<SlideResult> -> string)
    ensures extract(pdfPath).Err? ==> ConversionStore(store, pdfPath, baseTheme, extract, parse, agent, serialize) == store
    ensures var r := ConversionStore(store, pdfPath, baseTheme, extract, parse, agent, serialize);
      extract(pdfPath).Ok? ==> "pdf_content" in r && r["pdf_content"] == extract(pdfPath).value
    ensures var r := ConversionStore(store, pdfPath, baseTheme, extract, parse, agent, serialize);
      extract(pdfPath).Ok? && agent(AnalysisPrompt(extract(pdfPath).value)).Err? ==> r == store["pdf_content" := extract(pdfPath).value]
  {
    if extract(pdfPath).Ok? && agent(AnalysisPrompt(extract(pdfPath).value)).Ok? {
      var content := extract(pdfPath).value;
      var analysis := ExtractJsonFromResponse(parse, agent(AnalysisPrompt(content)).value);
      AnalysisStoreKeeps(store["pdf_content" := content]["content_analysis" := analysis], baseTheme, parse, agent, serialize, analysis);
    }
  }

  /** A successful conversion stores its content, its analysis and its
      serialised slides. */
  lemma ConversionStoreSucceeds(store: map<string, string>, pdfPath: string, outputDir: string, baseTheme: JValue,
                                extract: string -> Result<string, string>, parse: Parser, agent: Agent,
                                serialize: seq<SlideResult> -> string)
    requires Conversion(pdfPath, outputDir, baseTheme, extract, parse, agent).Ok?
    ensures var c := Conversion(pdfPath, outputDir, baseTheme, extract, parse, agent);
      ConversionStore(store, pdfPath, baseTheme, extract, parse, agent, serialize)
      == store["pdf_content" := c.value.pdfContent]["content_analysis" := c.value.analysis]["slides" := serialize(c.value.slides)]
  {
    var content := extract(pdfPath).value;
    var analysis := ExtractJsonFromResponse(parse, agent(AnalysisPrompt(content)).value);
    var s := store["pdf_content" := content]["content_analysis" := analysis];
    assert Conversion(pdfPath, outputDir, baseTheme, extract, parse, agent)
      == ConversionOfAnalysis(pdfPath, outputDir, baseTheme, parse, agent, content, analysis);
    var items := Iterate(parse(analysis).value).value;
    var g := Gather(Outcomes(items, baseTheme, JsonOf(parse), agent));
    assert Conversion(pdfPath, outputDir, baseTheme, extract, parse, agent)
      == ConversionOfSlides(pdfPath, outputDir, baseTheme, agent, content, analysis, g);
    assert AnalysisStore(s, baseTheme, parse, agent, serialize, analysis) == SlidesStore(s, serialize, g);
  }

  /** The intended conversion reports success exactly when every step
      succeeds, and an error message otherwise; it never raises. The store
      gains what the steps that ran wrote, and nothing else changes. */
  method ConvertPdfToSlides(cm: ContextStore.ContextManager<string>, pdfPath: string, outputDir: string, baseTheme: JValue,
                            extract: string -> Result<string, string>, parse: Parser, agent: Agent,
                            serialize: seq<SlideResult> -> string)
    returns (message: string)
    requires cm.Valid()
    modifies cm
    ensures cm.Valid()
    ensures var c := Conversion(pdfPath, outputDir, baseTheme, extract, parse, agent);
      message == (if c.Ok? then SuccessMessage(outputDir) else "Error: " + c.error)
    ensures cm.store == ConversionStore(old(cm.store), pdfPath, baseTheme, extract, parse, agent, serialize)
  {
    var content := extract(pdfPath);
    if content.Err? {
      return "Error: " + content.error;
    }
    cm.StoreResult("pdf_content", content.value);
    var reply := agent(AnalysisPrompt(content.value));
    if reply.Err? {
      return "Error: " + reply.error;
    }
    var analysis := ExtractJsonFromResponse(parse, reply.value);
    cm.StoreResult("content_analysis", analysis);
    message := ConvertAnalysis(cm, pdfPath, outputDir, baseTheme, parse, agent, serialize, content.value, analysis);
  }

  /** Steps 3 and 4 of the conversion, once the analysis is stored: decode it,
      process the slides, store them and ask for the presentation. */
  method ConvertAnalysis(cm: ContextStore.ContextManager<string>, pdfPath: string, outputDir: string, baseTheme: JValue,
                         parse: Parser, agent: Agent, serialize: seq<SlideResult> -> string, content: string, analysis: string)
    returns (message: string)
    requires cm.Valid()
    modifies cm
    ensures cm.Valid()
    ensures var c := ConversionOfAnalysis(pdfPath, outputDir, baseTheme, parse, agent, content, analysis);
      message == (if c.Ok? then SuccessMessage(outputDir) else "Error: " + c.error)
    ensures cm.store == AnalysisStore(old(cm.store), baseTheme, parse, agent, serialize, analysis)
  {
    ghost var c := ConversionOfAnalysis(pdfPath, outputDir, baseTheme, parse, agent, content, analysis);
    var decoded := parse(analysis);
    if decoded.None? {
      return "Error: " + InvalidJsonMessage;
    }
    var items := Iterate(decoded.value);
    if items.Err? {
      return "Error: " + items.error;
    }
    var results := ProcessSlidesInParallel(items.value, baseTheme, JsonOf(parse), agent);
    assert c == ConversionOfSlides(pdfPath, outputDir, baseTheme, agent, content, analysis, results);
    assert AnalysisStore(old(cm.store), baseTheme, parse, agent, serialize, analysis) == SlidesStore(old(cm.store), serialize, results);
    if results.Err? {
      return "Error: " + results.error;
    }
    cm.StoreResult("slides", serialize(results.value));
    var presentation := agent(PresentationPrompt(pdfPath, outputDir, baseTheme, results.value));
    if presentation.Err? {
      return "Error: " + presentation.error;
    }
    assert c == Ok(Converted(content, analysis, results.value));
    message := SuccessMessage(outputDir);
  }

  /** When every step succeeds the intended conversion succeeds, and its
      slides are the runs of the decoded analysis items, one per item. */
  lemma ConversionSucceeds(pdfPath: string, outputDir: string, baseTheme: JValue,
                           extract: string -> Result<string, string>, parse: Parser, agent: Agent, items: seq<JValue>)
    requires extract(pdfPath).Ok? && agent(AnalysisPrompt(extract(pdfPath).value)).Ok?
    requires parse(ExtractJsonFromResponse(parse, agent(AnalysisPrompt(extract(pdfPath).value)).value)) == Some(JArray(items))
    requires forall i :: 0 <= i < |items| ==> RunSlide(items[i], baseTheme, JsonOf(parse), agent).outcome.Ok?
    requires forall rs :: agent(PresentationPrompt(pdfPath, outputDir, baseTheme, rs)).Ok?
    ensures var c := Conversion(pdfPath, outputDir, baseTheme, extract, parse, agent);
      && c.Ok?
      && c.value.pdfContent == extract(pdfPath).value
      && |c.value.slides| == |items|
      && forall i :: 0 <= i < |items| ==> RunSlide(items[i], baseTheme, JsonOf(parse), agent).outcome == Ok(c.value.slides[i])
  {
    var content := extract(pdfPath).value;
    var analysis := ExtractJsonFromResponse(parse, agent(AnalysisPrompt(content)).value);
    var g := Gather(Outcomes(items, baseTheme, JsonOf(parse), agent));
    SlidesGathered(items, baseTheme, JsonOf(parse), agent);
    assert g.Ok?;
    assert parse(analysis) == Some(JArray(items));
    assert Iterate(JArray(items)) == Ok(items);
    assert ConversionOfAnalysis(pdfPath, outputDir, baseTheme, parse, agent, content, analysis)
        == ConversionOfSlides(pdfPath, outputDir, baseTheme, agent, content, analysis, g);
    assert Conversion(pdfPath, outputDir, baseTheme, extract, parse, agent)
        == ConversionOfAnalysis(pdfPath, outputDir, baseTheme, parse, agent, content, analysis);
  }

  /** A run on which every step succeeds: the PDF extracts, the analysis is
      the empty slide list, and every agent answers.  The conversion as written
      still reports the missing method, while the intended one reports success. */
  method AsWrittenFailsWhereIntendedSucceeds() returns (asWritten: string, intended: string)
    ensures asWritten == "Error: " + MissingExtractContent
    ensures intended == SuccessMessage("out")
    ensures asWritten != intended
  {
    var cm := new ContextStore.ContextManager<string>();
    var extract := (p: string) => Ok("text");
    var parse: Parser := (s: string) => if s == "[]" then Some(JArray([])) else None;
    var agent: Agent := (p: Prompt) => Ok("[]");
    assert ExtractJsonFromResponse(parse, "[]") == "[]";
    assert Gather(Outcomes([], JNull, JsonOf(parse), agent)) == Ok([]);
    asWritten := ConvertAsWritten(cm, "in.pdf", "out", JNull, extract, parse, agent);
    intended := ConvertPdfToSlides(cm, "in.pdf", "out", JNull, extract, parse, agent, (rs: seq<SlideResult>) => "[]");
    assert asWritten[0] == 'E' && intended[0] == 'P';
  }
}
