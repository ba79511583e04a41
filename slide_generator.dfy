/**
 * The slide-generation skill: the slide data, theme, visualization and
 * image URL are substituted into the prompt, and the model's reply is cut down
 * to the HTML of one slide, wrapped in a slide `div` when it is not markup.
 */
module SlideGenerator {
  import opened Wrappers
  import opened Text
  import opened Patterns
  import opened Skills

  const FailurePrefix: string := "Slide generation failed: "
  const WrapOpen: string := "<div class='slide'>\n"
  const WrapClose: string := "\n</div>"

  /** The prompt: each placeholder replaced in turn, so text put in by an
      earlier replacement is itself open to the later ones. */
  function SlidePrompt(template: string, slideData: string, theme: string, visualization: string, imageUrl: string): string
  {
    var p1 := ReplaceAll(template, "{{slide_data}}", slideData);
    var p2 := ReplaceAll(p1, "{{theme}}", theme);
    var p3 := ReplaceAll(p2, "{{visualization}}", visualization);
    ReplaceAll(p3, "{{image_url}}", imageUrl)
  }

  /** Slide data that itself reads `{{theme}}` ends up as the theme. */
  lemma SubstitutionInOrder(theme: string)
    requires !Contains(theme, "{{visualization}}") && !Contains(theme, "{{image_url}}")
    ensures SlidePrompt("{{slide_data}}", "{{theme}}", theme, "", "") == theme
  {
    ReplaceWhole("{{slide_data}}", "{{theme}}");
    ReplaceWhole("{{theme}}", theme);
    ReplaceAbsent(theme, "{{visualization}}", "");
    ReplaceAbsent(theme, "{{image_url}}", "");
  }

  /** A template without placeholders is the prompt as it stands. */
  lemma PlainTemplate(template: string, slideData: string, theme: string, visualization: string, imageUrl: string)
    requires !Contains(template, "{{slide_data}}") && !Contains(template, "{{theme}}")
    requires !Contains(template, "{{visualization}}") && !Contains(template, "{{image_url}}")
    ensures SlidePrompt(template, slideData, theme, visualization, imageUrl) == template
  {
    ReplaceAbsent(template, "{{slide_data}}", slideData);
    ReplaceAbsent(template, "{{theme}}", theme);
    ReplaceAbsent(template, "{{visualization}}", visualization);
    ReplaceAbsent(template, "{{image_url}}", imageUrl);
  }

  /** The slide HTML in a reply: the stripped interior of its first fenced
      block (tagged `html` or untagged), else the whole reply stripped; text
      that does not start with `<` is wrapped in a slide `div`.  The answer
      always starts with `<`. */
  function HtmlCode(result: string): (r: string)
    ensures |r| > 0 && r[0] == '<'
    ensures var code := FencedOrStripped(result, HtmlTags);
      r == if StartsWith(code, "<") then code else WrapOpen + code + WrapClose
  {
    PlainTagLists();
    var code := FencedOrStripped(result, HtmlTags);
    if StartsWith(code, "<") then
      assert code[0] == code[..1][0] == '<';
      code
    else
      var w := WrapOpen + code + WrapClose;
      assert w[0] == WrapOpen[0] == '<';
      w
  }

  /** Markup the reply gives is kept as it is: extracting it again changes nothing. */
  lemma MarkupKept(result: string)
    ensures StartsWith(FencedOrStripped(result, HtmlTags), "<") ==> HtmlCode(HtmlCode(result)) == HtmlCode(result)
  {
    PlainTagLists();
    FencedOrStrippedIdempotent(result, HtmlTags);
  }

  /** A reply that wraps markup in an `html` block gives that markup, stripped. */
  lemma HtmlFromBlock(x: string)
    requires !Contains(x, Fence) && StartsWith(Strip(x), "<")
    ensures HtmlCode(Fence + "html" + "\n" + x + "\n" + Fence) == Strip(x)
  {
    PlainTagLists();
    FencedBodyOfBlock("html", x, HtmlTags);
  }

  /** An empty reply still gives a slide: an empty slide `div`. */
  lemma EmptyReplyWrapped()
    ensures HtmlCode("") == WrapOpen + WrapClose
  {
    PlainTagLists();
    assert !Occurs("", Fence, 0);
    assert IndexFrom("", Fence, 0) == None;
    assert Strip("") == "";
  }

  /** `generate_slide`.  A missing `slide_data`, then a missing `theme`, is a
      `ValueError` raised before the model is asked; `visualization` and
      `image_url` default to the empty string; the model's failure is
      re-raised as a `RuntimeError` with the failure prefix. */
  function GenerateSlide(context: Context, template: string, model: Model): (r: Result<string, Raised>)
    ensures "slide_data" !in context ==> r == Err(ValueError("Slide data is missing from context"))
    ensures "slide_data" in context && "theme" !in context ==> r == Err(ValueError("Theme is missing from context"))
    ensures "slide_data" in context && "theme" in context ==>
      var visualization := if "visualization" in context then context["visualization"] else "";
      var imageUrl := if "image_url" in context then context["image_url"] else "";
      var reply := model(SlidePrompt(template, context["slide_data"], context["theme"], visualization, imageUrl));
      r == if reply.Err? then Err(RuntimeError(FailurePrefix + reply.error)) else Ok(HtmlCode(reply.value))
    ensures r.Ok? ==> |r.value| > 0 && r.value[0] == '<'
  {
    if "slide_data" !in context then Err(ValueError("Slide data is missing from context"))
    else if "theme" !in context then Err(ValueError("Theme is missing from context"))
    else
      var visualization := if "visualization" in context then context["visualization"] else "";
      var imageUrl := if "image_url" in context then context["image_url"] else "";
      var prompt := SlidePrompt(template, context["slide_data"], context["theme"], visualization, imageUrl);
      match model(prompt)
      case Err(e) => Err(RuntimeError(FailurePrefix + e))
      case Ok(result) => Ok(HtmlCode(result))
  }
}
