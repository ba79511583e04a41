/**
 * The theme-and-layout skill: the model is asked for a theme configuration;
 * a fenced JSON block in its reply is returned as it is when it decodes, and
 * otherwise a configuration is assembled from `Theme:`, `Color:` and `Layout:`
 * lines in the reply, with defaults for the ones it lacks.
 */
module ThemeLayout {
  import opened Wrappers
  import opened Text
  import opened Json
  import opened Patterns
  import opened Skills

  const Placeholder: string := "{{slide_data}}"
  const FailurePrefix: string := "Theme and layout selection failed: "

  const DefaultTheme: string := "academic"
  const DefaultColor: string := "blue"
  const DefaultLayout: string := "title-content"
  const CssClasses: string := "slide-academic"

  /** A stripped group of `[\w\s-]+`. */
  predicate Matched(v: string)
  {
    Trimmed(v) && forall j :: 0 <= j < |v| ==> IsValueChar(v[j])
  }

  /** `theme_config`: the three matched values, stripped, or their defaults,
      and the fixed CSS class, in this key order. */
  function ThemeConfig(result: string): (c: seq<(string, string)>)
    ensures |c| == 4
    ensures c[0].0 == "themeName" && c[1].0 == "colorScheme" && c[2].0 == "layout" && c[3] == ("cssClasses", CssClasses)
    ensures FindKey(result, "Theme", "name").None? ==> c[0].1 == DefaultTheme
    ensures FindKey(result, "Color", "scheme").None? ==> c[1].1 == DefaultColor
    ensures FindKey(result, "Layout", "structure").None? ==> c[2].1 == DefaultLayout
    ensures FindKey(result, "Theme", "name").Some? ==> Matched(c[0].1)
    ensures FindKey(result, "Color", "scheme").Some? ==> Matched(c[1].1)
    ensures FindKey(result, "Layout", "structure").Some? ==> Matched(c[2].1)
  {
    [("themeName", KeyValue(result, "Theme", "name", DefaultTheme)),
     ("colorScheme", KeyValue(result, "Color", "scheme", DefaultColor)),
     ("layout", KeyValue(result, "Layout", "structure", DefaultLayout)),
     ("cssClasses", CssClasses)]
  }

  /** `json.dumps(theme_config)`. */
  function FallbackConfig(result: string): string
  {
    DumpsObject(ThemeConfig(result))
  }

  /** The fallback is the serialisation of exactly the four-key configuration:
      decoding it gives those four entries back. */
  lemma FallbackDecodes(result: string)
    ensures DecodeObject(FallbackConfig(result)) == Some(ThemeConfig(result))
  {
    DumpsObjectRoundTrip(ThemeConfig(result));
  }

  /** The post-processing of the reply: the stripped interior of its first
      fenced block (tagged `json` or untagged) when that decodes, else the
      fallback configuration; an interior that does not decode is passed over,
      not raised. */
  function ParseThemeReply(parse: Parser, result: string): (r: string)
    ensures IsValidJson(parse, r) || r == FallbackConfig(result)
  {
    PlainTagLists();
    match FencedBody(result, JsonTags)
    case Some(body) => if IsValidJson(parse, body) then body else FallbackConfig(result)
    case None => FallbackConfig(result)
  }

  /** Whatever the reply, the answer is JSON the parser accepts or the
      serialised fallback configuration. */
  lemma ReplyIsConfiguration(parse: Parser, result: string)
    ensures IsValidJson(parse, ParseThemeReply(parse, result))
         || DecodeObject(ParseThemeReply(parse, result)) == Some(ThemeConfig(result))
  {
    FallbackDecodes(result);
  }

  /** A reply that is one `json` or untagged block is answered with the
      block's stripped interior when that decodes, and with the fallback
      configuration when it does not. */
  lemma ThemeFromJsonBlock(parse: Parser, t: string, x: string)
    requires t == "json" || t == ""
    requires !Contains(x, Fence)
    ensures IsValidJson(parse, Strip(x)) ==>
      ParseThemeReply(parse, Fence + t + "\n" + x + "\n" + Fence) == Strip(x)
    ensures !IsValidJson(parse, Strip(x)) ==>
      ParseThemeReply(parse, Fence + t + "\n" + x + "\n" + Fence) == FallbackConfig(Fence + t + "\n" + x + "\n" + Fence)
  {
    PlainTagLists();
    FencedBodyOfBlock(t, x, JsonTags);
  }

  /** A reply without a fenced block, for instance one without any fence, is
      answered with the fallback configuration, even when it decodes itself. */
  lemma ThemeWithoutBlock(parse: Parser, result: string)
    ensures NoBlock(result) ==> ParseThemeReply(parse, result) == FallbackConfig(result)
    ensures !Contains(result, Fence) ==> ParseThemeReply(parse, result) == FallbackConfig(result)
  {
    PlainTagLists();
    if !Contains(result, Fence) {
      NoFenceNoBlock(result, JsonTags);
    }
    if NoBlock(result) {
      assert FencedBody(result, JsonTags).None?;
    }
  }

  /** A reply that says only `Theme: v` names that theme. */
  lemma ThemeFromLine(v: string)
    requires ValueText(v) && Trimmed(v)
    ensures ThemeConfig("Theme: " + v)[0] == ("themeName", v)
  {
    var text := "Theme" + ": " + v;
    assert text == "Theme: " + v;
    KeyValueOfLine("Theme", v, "name", DefaultTheme);
  }

  /** `get_theme_and_layout`.  A missing `slide_data` is a `ValueError` raised
      before the model is asked; the only other failure is the model's, which
      is re-raised as a `RuntimeError` with the failure prefix. */
  function GetThemeAndLayout(context: Context, template: string, model: Model, parse: Parser): (r: Result<string, Raised>)
    ensures "slide_data" !in context ==> r == Err(ValueError("Slide data is missing from context"))
    ensures "slide_data" in context ==>
      var reply := model(ReplaceAll(template, Placeholder, context["slide_data"]));
      && (reply.Err? ==> r == Err(RuntimeError(FailurePrefix + reply.error)))
      && (reply.Ok? ==> r == Ok(ParseThemeReply(parse, reply.value)))
  {
    if "slide_data" !in context then Err(ValueError("Slide data is missing from context"))
    else
      var prompt := ReplaceAll(template, Placeholder, context["slide_data"]);
      match model(prompt)
      case Err(e) => Err(RuntimeError(FailurePrefix + e))
      case Ok(result) => Ok(ParseThemeReply(parse, result))
  }
}
