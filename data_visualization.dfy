/**
 * The data-visualization skill: the data and the slide data are substituted
 * into the prompt, and the model's reply is cut down to its JavaScript.
 */
module DataVisualization {
  import opened Wrappers
  import opened Text
  import opened Patterns
  import opened Skills

  const FailurePrefix: string := "Visualization creation failed: "

  /** The prompt: `{{data}}` is replaced first, then `{{slide_data}}`. */
  function VisualizationPrompt(template: string, data: string, slideData: string): string
  {
    ReplaceAll(ReplaceAll(template, "{{data}}", data), "{{slide_data}}", slideData)
  }

  /** Data that itself reads `{{slide_data}}` ends up as the slide data. */
  lemma DataReplacedFirst(slideData: string)
    ensures VisualizationPrompt("{{data}}", "{{slide_data}}", slideData) == slideData
  {
    ReplaceWhole("{{data}}", "{{slide_data}}");
    ReplaceWhole("{{slide_data}}", slideData);
  }

  /** Slide data that reads `{{data}}` is left as it is: that placeholder is
      already gone when it is put in. */
  lemma SlideDataReplacedSecond(data: string)
    ensures VisualizationPrompt("{{slide_data}}", data, "{{data}}") == "{{data}}"
  {
    assert !Contains("{{slide_data}}", "{{data}}") by {
      forall j | 0 <= j <= |"{{slide_data}}"| - |"{{data}}"| ensures !Occurs("{{slide_data}}", "{{data}}", j) {
        NoOccurrenceAcross("{{slide_data}}", "{{data}}", j, if j == 0 then 2 else j + 1);
      }
    }
    ReplaceAbsent("{{slide_data}}", "{{data}}", data);
    ReplaceWhole("{{slide_data}}", "{{data}}");
  }

  /** The JavaScript in a reply: the stripped interior of its first fenced
      block (tagged `javascript`, `js` or untagged), else the whole reply
      stripped.  It never has surrounding whitespace, holds no further block,
      and extracting again changes nothing. */
  function JsCode(result: string): (r: string)
    ensures Trimmed(r)
    ensures FindFence(r, JsTags).None?
    ensures FencedBody(result, JsTags).None? ==> r == Strip(result)
    ensures FencedBody(result, JsTags).Some? ==> r == FencedBody(result, JsTags).value
  {
    PlainTagLists();
    FencedOrStripped(result, JsTags)
  }

  lemma JsCodeIdempotent(result: string)
    ensures JsCode(JsCode(result)) == JsCode(result)
  {
    PlainTagLists();
    FencedOrStrippedIdempotent(result, JsTags);
  }

  /** A reply that wraps code in a block tagged `javascript`, `js`, or nothing
      gives that code, stripped. */
  lemma JsFromBlock(t: string, x: string)
    requires t == "javascript" || t == "js" || t == ""
    requires !Contains(x, Fence)
    ensures JsCode(Fence + t + "\n" + x + "\n" + Fence) == Strip(x)
  {
    PlainTagLists();
    assert t == "" || t in JsTags;
    FencedBodyOfBlock(t, x, JsTags);
  }

  /** `create_visualization`.  A missing `data`, then a missing `slide_data`,
      is a `ValueError` raised before the model is asked; the model's failure
      is re-raised as a `RuntimeError` with the failure prefix. */
  function CreateVisualization(context: Context, template: string, model: Model): (r: Result<string, Raised>)
    ensures "data" !in context ==> r == Err(ValueError("Data is missing from context"))
    ensures "data" in context && "slide_data" !in context ==> r == Err(ValueError("Slide data is missing from context"))
    ensures "data" in context && "slide_data" in context ==>
      var reply := model(VisualizationPrompt(template, context["data"], context["slide_data"]));
      r == if reply.Err? then Err(RuntimeError(FailurePrefix + reply.error)) else Ok(JsCode(reply.value))
    ensures r.Ok? ==> Trimmed(r.value)
  {
    if "data" !in context then Err(ValueError("Data is missing from context"))
    else if "slide_data" !in context then Err(ValueError("Slide data is missing from context"))
    else
      match model(VisualizationPrompt(template, context["data"], context["slide_data"]))
      case Err(e) => Err(RuntimeError(FailurePrefix + e))
      case Ok(result) => Ok(JsCode(result))
  }
}
