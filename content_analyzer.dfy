/**
 * The content-analysis skill: it asks the model to split the PDF text into
 * slides, decodes the reply (falling back to the first slide array found in
 * it), checks every slide record and fills in the optional fields.
 */
module ContentAnalyzer {
  import opened Wrappers
  import opened Text
  import opened Json
  import opened Patterns
  import opened Skills

  // ---------------------------------------------------------------------------
  // _validate_slide_data: the checks on one slide
  // ---------------------------------------------------------------------------

  const RequiredFields: seq<string> := ["SlideNumber", "Title", "Content"]

  /** The first of `names[from..]` the record lacks, checked in order. */
  function FirstMissing(fields: seq<(string, JValue)>, names: seq<string>, from: nat): (r: Option<nat>)
    requires from <= |names|
    ensures r.Some? ==> from <= r.value < |names| && !HasField(fields, names[r.value])
    ensures r.Some? ==> forall k :: from <= k < r.value ==> HasField(fields, names[k])
    ensures r.None? <==> forall k :: from <= k < |names| ==> HasField(fields, names[k])
    decreases |names| - from
  {
    if from == |names| then None
    else if !HasField(fields, names[from]) then Some(from)
    else FirstMissing(fields, names, from + 1)
  }

  /** `isinstance(x, int)`: Python's `bool` is a subclass of `int`, so a JSON
      `true` or `false` passes. */
  predicate IsInt(v: JValue)
  {
    v.JInt? || v.JBool?
  }

  /** A slide record `_validate_slide_data` accepts. */
  predicate WellFormed(slide: JValue)
  {
    && slide.JObject?
    && Lookup(slide.fields, "SlideNumber").Some? && IsInt(Lookup(slide.fields, "SlideNumber").value)
    && Lookup(slide.fields, "Title").Some? && Lookup(slide.fields, "Title").value.JString?
    && Lookup(slide.fields, "Content").Some? && Lookup(slide.fields, "Content").value.JArray?
  }

  /** The `ValueError` message for slide `i`, or `None` when it passes. */
  function SlideError(i: nat, slide: JValue): (r: Option<string>)
    ensures r.None? <==> WellFormed(slide)
    ensures !slide.JObject? ==> r == Some("Slide " + NatToString(i) + " must be a dictionary")
    ensures slide.JObject? && FirstMissing(slide.fields, RequiredFields, 0).Some? ==>
      r == Some("Slide " + NatToString(i) + " is missing required field: "
                + RequiredFields[FirstMissing(slide.fields, RequiredFields, 0).value])
    ensures slide.JObject? && FirstMissing(slide.fields, RequiredFields, 0).None? && r.Some? ==>
      r.value in {"SlideNumber in slide " + NatToString(i) + " must be an integer",
                  "Title in slide " + NatToString(i) + " must be a string",
                  "Content in slide " + NatToString(i) + " must be a list"}
  {
    var n := NatToString(i);
    if !slide.JObject? then Some("Slide " + n + " must be a dictionary")
    else
      var fields := slide.fields;
      match FirstMissing(fields, RequiredFields, 0)
      case Some(k) => Some("Slide " + n + " is missing required field: " + RequiredFields[k])
      case None =>
        assert HasField(fields, RequiredFields[0]) && HasField(fields, RequiredFields[1]) && HasField(fields, RequiredFields[2]);
        if !IsInt(Lookup(fields, "SlideNumber").value) then Some("SlideNumber in slide " + n + " must be an integer")
        else if !Lookup(fields, "Title").value.JString? then Some("Title in slide " + n + " must be a string")
        else if !Lookup(fields, "Content").value.JArray? then Some("Content in slide " + n + " must be a list")
        else None
  }

  /** A record with the number, title and content but content that is no
      list is reported for its content. */
  lemma ContentChecked(i: nat, number: int, title: string, content: JValue)
    requires !content.JArray?
    ensures SlideError(i, JObject([("SlideNumber", JInt(number)), ("Title", JString(title)), ("Content", content)]))
         == Some("Content in slide " + NatToString(i) + " must be a list")
  {
    var fields := [("SlideNumber", JInt(number)), ("Title", JString(title)), ("Content", content)];
    assert fields[0].0 == "SlideNumber" && fields[1].0 == "Title" && fields[2].0 == "Content";
    assert Lookup(fields, "Content") == Some(content);
    assert Lookup(fields, "Title") == Some(JString(title)) by {
      assert fields[..2][1].0 == "Title";
    }
    assert Lookup(fields, "SlideNumber") == Some(JInt(number)) by {
      assert fields[..2][..1][0].0 == "SlideNumber";
    }
  }

  // ---------------------------------------------------------------------------
  // _validate_slide_data: defaults
  // ---------------------------------------------------------------------------

  /** `if key not in d: d[key] = v`: a new key goes last, a present one keeps
      its value, and no other key changes. */
  function SetDefault(fields: seq<(string, JValue)>, key: string, v: JValue): (r: seq<(string, JValue)>)
    ensures Extends(r, fields)
    ensures Lookup(r, key) == if HasField(fields, key) then Lookup(fields, key) else Some(v)
    ensures forall other :: other != key ==> Lookup(r, other) == Lookup(fields, other)
  {
    if HasField(fields, key) then fields
    else
      LookupAppended(fields, key, v);
      forall other | other != key ensures Lookup(fields + [(key, v)], other) == Lookup(fields, other) {
        LookupAppendedOther(fields, key, v, other);
      }
      fields + [(key, v)]
  }

  /** `r` keeps the entries of `fields` in place and may add more after them. */
  predicate Extends(r: seq<(string, JValue)>, fields: seq<(string, JValue)>)
  {
    |fields| <= |r| && r[..|fields|] == fields
  }

  lemma ExtendsTrans(c: seq<(string, JValue)>, b: seq<(string, JValue)>, a: seq<(string, JValue)>)
    requires Extends(c, b) && Extends(b, a)
    ensures Extends(c, a)
  {
    assert c[..|a|] == c[..|b|][..|a|];
  }

  /** The optional fields in the order their defaults are set. */
  predicate OptionalField(key: string)
  {
    key == "HasData" || key == "Data" || key == "NeedsImage" || key == "ImageKeywords"
  }

  /** The four optional fields with their defaults: `False`, `""`, `False`, `""`.
      The existing entries stay where they were, and every key that is not
      optional reads as before. */
  function FillDefaults(fields: seq<(string, JValue)>): (r: seq<(string, JValue)>)
    ensures Extends(r, fields)
    ensures Lookup(r, "HasData") == if HasField(fields, "HasData") then Lookup(fields, "HasData") else Some(JBool(false))
    ensures Lookup(r, "Data") == if HasField(fields, "Data") then Lookup(fields, "Data") else Some(JString(""))
    ensures Lookup(r, "NeedsImage") == if HasField(fields, "NeedsImage") then Lookup(fields, "NeedsImage") else Some(JBool(false))
    ensures Lookup(r, "ImageKeywords") == if HasField(fields, "ImageKeywords") then Lookup(fields, "ImageKeywords") else Some(JString(""))
    ensures forall key :: !OptionalField(key) ==> Lookup(r, key) == Lookup(fields, key)
  {
    var f1 := SetDefault(fields, "HasData", JBool(false));
    var f2 := SetDefault(f1, "Data", JString(""));
    var f3 := SetDefault(f2, "NeedsImage", JBool(false));
    var f4 := SetDefault(f3, "ImageKeywords", JString(""));
    SetDefaultChain(fields, "HasData", JBool(false), "Data", JString(""), "NeedsImage", JBool(false), "ImageKeywords", JString(""));
    f4
  }

  /** Four defaults set in turn, for four different keys: each key reads its
      own default unless it was present, and every other key reads as before. */
  lemma SetDefaultChain(fields: seq<(string, JValue)>, a: string, va: JValue, b: string, vb: JValue,
                        c: string, vc: JValue, d: string, vd: JValue)
    requires a != b && a != c && a != d && b != c && b != d && c != d
    ensures var f4 := SetDefault(SetDefault(SetDefault(SetDefault(fields, a, va), b, vb), c, vc), d, vd);
      && Extends(f4, fields)
      && Lookup(f4, a) == (if HasField(fields, a) then Lookup(fields, a) else Some(va))
      && Lookup(f4, b) == (if HasField(fields, b) then Lookup(fields, b) else Some(vb))
      && Lookup(f4, c) == (if HasField(fields, c) then Lookup(fields, c) else Some(vc))
      && Lookup(f4, d) == (if HasField(fields, d) then Lookup(fields, d) else Some(vd))
      && forall key :: key != a && key != b && key != c && key != d ==> Lookup(f4, key) == Lookup(fields, key)
  {
    SetDefaultChainOwn(fields, a, va, b, vb, c, vc, d, vd);
    var f4 := SetDefault(SetDefault(SetDefault(SetDefault(fields, a, va), b, vb), c, vc), d, vd);
    forall key | key != a && key != b && key != c && key != d
      ensures Lookup(f4, key) == Lookup(fields, key)
    {
      var f1 := SetDefault(fields, a, va);
      var f2 := SetDefault(f1, b, vb);
      var f3 := SetDefault(f2, c, vc);
      SetDefaultOther(fields, a, va, key); SetDefaultOther(f1, b, vb, key);
      SetDefaultOther(f2, c, vc, key); SetDefaultOther(f3, d, vd, key);
    }
  }

  lemma SetDefaultChainOwn(fields: seq<(string, JValue)>, a: string, va: JValue, b: string, vb: JValue,
                           c: string, vc: JValue, d: string, vd: JValue)
    requires a != b && a != c && a != d && b != c && b != d && c != d
    ensures var f4 := SetDefault(SetDefault(SetDefault(SetDefault(fields, a, va), b, vb), c, vc), d, vd);
      && Extends(f4, fields)
      && Lookup(f4, a) == (if HasField(fields, a) then Lookup(fields, a) else Some(va))
      && Lookup(f4, b) == (if HasField(fields, b) then Lookup(fields, b) else Some(vb))
      && Lookup(f4, c) == (if HasField(fields, c) then Lookup(fields, c) else Some(vc))
      && Lookup(f4, d) == (if HasField(fields, d) then Lookup(fields, d) else Some(vd))
  {
    var f1 := SetDefault(fields, a, va);
    var f2 := SetDefault(f1, b, vb);
    var f3 := SetDefault(f2, c, vc);
    var f4 := SetDefault(f3, d, vd);
    ExtendsTrans(f2, f1, fields);
    ExtendsTrans(f3, f2, fields);
    ExtendsTrans(f4, f3, fields);
    SetDefaultOther(f1, b, vb, a); SetDefaultOther(f2, c, vc, a); SetDefaultOther(f3, d, vd, a);
    SetDefaultOther(fields, a, va, b); SetDefaultOther(f2, c, vc, b); SetDefaultOther(f3, d, vd, b);
    SetDefaultOther(fields, a, va, c); SetDefaultOther(f1, b, vb, c); SetDefaultOther(f3, d, vd, c);
    SetDefaultOther(fields, a, va, d); SetDefaultOther(f1, b, vb, d); SetDefaultOther(f2, c, vc, d);
  }

  lemma SetDefaultOther(fields: seq<(string, JValue)>, key: string, v: JValue, other: string)
    requires other != key
    ensures Lookup(SetDefault(fields, key, v), other) == Lookup(fields, other)
    ensures HasField(SetDefault(fields, key, v), other) == HasField(fields, other)
  {
  }

  /** A slide after its defaults are set (only records get them). */
  function Filled(slide: JValue): JValue
  {
    if slide.JObject? then JObject(FillDefaults(slide.fields)) else slide
  }

  // ---------------------------------------------------------------------------
  // _validate_slide_data: the loop over the list
  // ---------------------------------------------------------------------------

  /** The first slide whose check fails. */
  function FirstFailure(slides: seq<JValue>, check: (nat, JValue) -> Option<string>, from: nat): (r: Option<nat>)
    requires from <= |slides|
    ensures r.Some? ==> from <= r.value < |slides| && check(r.value, slides[r.value]).Some?
    ensures r.Some? ==> forall j :: from <= j < r.value ==> check(j, slides[j]).None?
    ensures r.None? <==> forall j :: from <= j < |slides| ==> check(j, slides[j]).None?
    decreases |slides| - from
  {
    if from == |slides| then None
    else if check(from, slides[from]).Some? then Some(from)
    else FirstFailure(slides, check, from + 1)
  }

  /** The loop of `_validate_slide_data`, in place, with the checks of one
      slide as `check` and the defaults as `fill` (`SlideError` and `Filled`
      below).  Each slide is checked and then filled, so when slide `i` fails
      the slides before it have already been filled and the rest are as they
      were. */
  method ValidateSlides(slides: array<JValue>, check: (nat, JValue) -> Option<string>, fill: JValue -> JValue)
    returns (err: Option<string>)
    modifies slides
    ensures var f := FirstFailure(old(slides[..]), check, 0);
      err == (if f.Some? then check(f.value, old(slides[f.value])) else None)
    ensures var f := FirstFailure(old(slides[..]), check, 0);
      var n := if f.Some? then f.value else slides.Length;
      && (forall j :: 0 <= j < n ==> slides[j] == fill(old(slides[j])))
      && (forall j :: n <= j < slides.Length ==> slides[j] == old(slides[j]))
  {
    ghost var before := slides[..];
    var i := 0;
    while i < slides.Length
      invariant 0 <= i <= slides.Length
      invariant forall j :: 0 <= j < i ==> check(j, before[j]).None?
      invariant forall j :: 0 <= j < i ==> slides[j] == fill(before[j])
      invariant forall j :: i <= j < slides.Length ==> slides[j] == before[j]
    {
      var e := check(i, slides[i]);
      if e.Some? {
        assert FirstFailure(before, check, 0) == Some(i);
        return e;
      }
      slides[i] := fill(slides[i]);
      i := i + 1;
    }
    err := None;
  }

  /** The slide checks fail first at a malformed slide after well-formed ones. */
  lemma FirstFailureAt(slides: seq<JValue>, i: nat)
    requires i < |slides| && !WellFormed(slides[i])
    requires forall j :: 0 <= j < i ==> WellFormed(slides[j])
    ensures FirstFailure(slides, SlideError, 0) == Some(i)
  {
    forall j | 0 <= j < i ensures SlideError(j, slides[j]).None? {
      assert WellFormed(slides[j]);
    }
    assert SlideError(i, slides[i]).Some?;
    FirstFailureIs(slides, SlideError, i);
  }

  lemma FirstFailureIs(slides: seq<JValue>, check: (nat, JValue) -> Option<string>, i: nat)
    requires i < |slides| && check(i, slides[i]).Some?
    requires forall j :: 0 <= j < i ==> check(j, slides[j]).None?
    ensures FirstFailure(slides, check, 0) == Some(i)
  {
    var r := FirstFailure(slides, check, 0);
    assert r.Some?;
  }

  /** `_validate_slide_data` on the decoded value, as a value: the filled list,
      or the message of the `ValueError` it raises. */
  function Validation(data: JValue): Result<JValue, string>
  {
    if !data.JArray? then Err("Slide data must be a list")
    else
      var items := data.items;
      match FirstFailure(items, SlideError, 0)
      case Some(i) => Err(SlideError(i, items[i]).value)
      case None => Ok(JArray(FillAll(items, Filled)))
  }

  /** Every slide of a list passed through `fill`, in order. */
  function FillAll(items: seq<JValue>, fill: JValue -> JValue): (out: seq<JValue>)
    ensures |out| == |items| && forall j :: 0 <= j < |items| ==> out[j] == fill(items[j])
  {
    seq(|items|, j requires 0 <= j < |items| => fill(items[j]))
  }

  /** A list whose every slide is `fill` of the slide before is the filled list. */
  lemma FillAllOf(before: seq<JValue>, after: seq<JValue>, fill: JValue -> JValue)
    requires |after| == |before| && forall j :: 0 <= j < |before| ==> after[j] == fill(before[j])
    ensures after == FillAll(before, fill)
  {
  }

  /** Filling a list whose slides `fill` leaves alone changes nothing. */
  lemma FillAllFixed(items: seq<JValue>, fill: JValue -> JValue)
    requires forall j :: 0 <= j < |items| ==> fill(items[j]) == items[j]
    ensures FillAll(items, fill) == items
  {
  }

  /** `_validate_slide_data(json_result)`: the decoded list is copied into an
      array, validated in place, and read back. */
  method ValidateSlideData(data: JValue) returns (r: Result<JValue, string>)
    ensures r == Validation(data)
  {
    if !data.JArray? {
      return Err("Slide data must be a list");
    }
    var items := data.items;
    var slides := new JValue[|items|](j requires 0 <= j < |items| => items[j]);
    assert slides[..] == items;
    var err := ValidateSlides(slides, SlideError, Filled);
    if err.Some? {
      return Err(err.value);
    }
    FillAllOf(items, slides[..], Filled);
    r := Ok(JArray(slides[..]));
  }

  /** A list passes exactly when all its slides are well formed; every slide
      of the result is well formed and has the four optional fields. */
  lemma ValidationAccepts(items: seq<JValue>)
    ensures Validation(JArray(items)).Ok? <==> forall j :: 0 <= j < |items| ==> WellFormed(items[j])
    ensures Validation(JArray(items)).Ok? ==>
      var out := Validation(JArray(items)).value.items;
      && |out| == |items|
      && forall j :: 0 <= j < |out| ==>
           WellFormed(out[j]) && out[j].JObject?
           && HasField(out[j].fields, "HasData") && HasField(out[j].fields, "Data")
           && HasField(out[j].fields, "NeedsImage") && HasField(out[j].fields, "ImageKeywords")
  {
    if Validation(JArray(items)).Ok? {
      var out := Validation(JArray(items)).value.items;
      forall j | 0 <= j < |out|
        ensures WellFormed(out[j]) && out[j].JObject?
        ensures HasField(out[j].fields, "HasData") && HasField(out[j].fields, "Data")
        ensures HasField(out[j].fields, "NeedsImage") && HasField(out[j].fields, "ImageKeywords")
      {
        FilledWellFormed(items[j]);
      }
    }
  }

  /** Filling keeps a well-formed slide well formed and gives it every
      optional field. */
  lemma FilledWellFormed(slide: JValue)
    requires WellFormed(slide)
    ensures WellFormed(Filled(slide)) && Filled(slide).JObject?
    ensures var f := Filled(slide).fields;
      HasField(f, "HasData") && HasField(f, "Data") && HasField(f, "NeedsImage") && HasField(f, "ImageKeywords")
  {
    var f := FillDefaults(slide.fields);
    assert !OptionalField("SlideNumber") && !OptionalField("Title") && !OptionalField("Content");
    assert Lookup(f, "HasData").Some? && Lookup(f, "Data").Some?;
    assert Lookup(f, "NeedsImage").Some? && Lookup(f, "ImageKeywords").Some?;
  }

  /** A list that fails reports its first failing slide. */
  lemma ValidationRejects(items: seq<JValue>, i: nat)
    requires i < |items| && !WellFormed(items[i])
    requires forall j :: 0 <= j < i ==> WellFormed(items[j])
    ensures Validation(JArray(items)) == Err(SlideError(i, items[i]).value)
  {
    FirstFailureAt(items, i);
  }

  /** Validating a validated list changes nothing. */
  lemma ValidationIdempotent(data: JValue)
    requires Validation(data).Ok?
    ensures Validation(Validation(data).value) == Validation(data)
  {
    var items := data.items;
    var out := Validation(data).value.items;
    ValidationAccepts(items);
    forall j | 0 <= j < |out| ensures Filled(out[j]) == out[j] {
      FillDefaultsIdempotent(items[j].fields);
    }
    ValidationAccepts(out);
    FillAllFixed(out, Filled);
  }

  lemma FillDefaultsIdempotent(fields: seq<(string, JValue)>)
    ensures FillDefaults(FillDefaults(fields)) == FillDefaults(fields)
  {
    var g := FillDefaults(fields);
    assert HasField(g, "HasData") && HasField(g, "Data") && HasField(g, "NeedsImage") && HasField(g, "ImageKeywords") by {
      assert Lookup(g, "HasData").Some? && Lookup(g, "Data").Some?;
      assert Lookup(g, "NeedsImage").Some? && Lookup(g, "ImageKeywords").Some?;
    }
    var h1 := SetDefault(g, "HasData", JBool(false));
    assert h1 == g;
    var h2 := SetDefault(h1, "Data", JString(""));
    assert h2 == g;
    var h3 := SetDefault(h2, "NeedsImage", JBool(false));
    assert h3 == g;
  }

  // ---------------------------------------------------------------------------
  // analyze_content
  // ---------------------------------------------------------------------------

  const Placeholder: string := "{{pdf_content}}"
  const FailurePrefix: string := "Content analysis failed: "
  const NoArrayMessage: string := "Failed to extract valid JSON from the analysis result"

  /** Stands for the message of the `json.JSONDecodeError` raised when the
      extracted slide array does not decode; the abstract parser does not give it. */
  const DecodeErrorMessage: string := "extracted slide array is not valid JSON"

  /** A decoded reply: validated, then serialised by `json.dumps`. */
  function Finish(v: JValue, serialize: JValue -> string): Result<string, Raised>
  {
    match Validation(v)
    case Ok(w) => Ok(serialize(w))
    case Err(e) => Err(RuntimeError(FailurePrefix + e))
  }

  /** `analyze_content`.  A missing `pdf_content` is a `ValueError` raised before
      the model is asked; every later failure is re-raised as a `RuntimeError`
      whose message starts with the failure prefix. */
  function AnalyzeContent(context: Context, template: string, model: Model, parse: Parser, serialize: JValue -> string)
    : (r: Result<string, Raised>)
    ensures "pdf_content" !in context ==> r == Err(ValueError("PDF content is missing from context"))
    ensures "pdf_content" in context && r.Err? ==> r.error.RuntimeError? && StartsWith(r.error.message, FailurePrefix)
  {
    if "pdf_content" !in context then Err(ValueError("PDF content is missing from context"))
    else
      var prompt := ReplaceAll(template, Placeholder, context["pdf_content"]);
      match model(prompt)
      case Err(e) => Err(RuntimeError(FailurePrefix + e))
      case Ok(result) =>
        match parse(result)
        case Some(v) => Finish(v, serialize)
        case None =>
          match FindSlideArray(result)
          case None => Err(RuntimeError(FailurePrefix + NoArrayMessage))
          case Some(span) =>
            match parse(span)
            case None => Err(RuntimeError(FailurePrefix + DecodeErrorMessage))
            case Some(v) => Finish(v, serialize)
  }

  /** A reply that decodes to well-formed slides comes back serialised with
      the defaults filled in. */
  lemma AnalyzeDirect(context: Context, template: string, model: Model, parse: Parser, serialize: JValue -> string,
                      items: seq<JValue>)
    requires "pdf_content" in context
    requires model(ReplaceAll(template, Placeholder, context["pdf_content"])).Ok?
    requires parse(model(ReplaceAll(template, Placeholder, context["pdf_content"])).value) == Some(JArray(items))
    requires forall j :: 0 <= j < |items| ==> WellFormed(items[j])
    ensures AnalyzeContent(context, template, model, parse, serialize)
         == Ok(serialize(JArray(FillAll(items, Filled))))
  {
    ValidationAccepts(items);
  }

  /** A reply that does not decode but holds a slide array in prose (no `[`
      before it, no `}` after it) is answered from that array: well-formed
      slides come back filled in and serialised, and an array that does not
      decode either raises the decode error. */
  lemma AnalyzeFallback(context: Context, template: string, model: Model, parse: Parser, serialize: JValue -> string,
                        pre: string, span: string, post: string, items: seq<JValue>)
    requires "pdf_content" in context
    requires model(ReplaceAll(template, Placeholder, context["pdf_content"])) == Ok(pre + span + post)
    requires parse(pre + span + post).None?
    requires |span| >= 4 && span[0] == '[' && span[1] == '{' && span[|span| - 2] == '}' && span[|span| - 1] == ']'
    requires NoChar(pre, '[') && NoChar(post, '}')
    ensures parse(span) == Some(JArray(items)) && (forall j :: 0 <= j < |items| ==> WellFormed(items[j])) ==>
      AnalyzeContent(context, template, model, parse, serialize) == Ok(serialize(JArray(FillAll(items, Filled))))
    ensures parse(span).None? ==>
      AnalyzeContent(context, template, model, parse, serialize) == Err(RuntimeError(FailurePrefix + DecodeErrorMessage))
  {
    SlideArrayInProse(pre, span, post);
    AnalyzeSpan(context, template, model, parse, serialize, span);
    FinishAccepts(items, serialize);
  }

  /** Well-formed slides finish as their filled-in serialisation. */
  lemma FinishAccepts(items: seq<JValue>, serialize: JValue -> string)
    ensures (forall j :: 0 <= j < |items| ==> WellFormed(items[j])) ==>
      Finish(JArray(items), serialize) == Ok(serialize(JArray(FillAll(items, Filled))))
  {
    if forall j :: 0 <= j < |items| ==> WellFormed(items[j]) {
      ValidationAccepts(items);
    }
  }

  /** The analysis of a reply that does not decode but whose slide-array
      search finds `span`. */
  lemma AnalyzeSpan(context: Context, template: string, model: Model, parse: Parser, serialize: JValue -> string,
                    span: string)
    requires "pdf_content" in context
    requires model(ReplaceAll(template, Placeholder, context["pdf_content"])).Ok?
    requires parse(model(ReplaceAll(template, Placeholder, context["pdf_content"])).value).None?
    requires FindSlideArray(model(ReplaceAll(template, Placeholder, context["pdf_content"])).value) == Some(span)
    ensures AnalyzeContent(context, template, model, parse, serialize)
         == if parse(span).None? then Err(RuntimeError(FailurePrefix + DecodeErrorMessage)) else Finish(parse(span).value, serialize)
  {
  }

  /** A reply that does not decode and has no `[` followed by optional
      whitespace and `{` that a `}`, optional whitespace and `]` follows, for
      instance one without any `[`, raises the no-array error. */
  lemma AnalyzeNoArray(context: Context, template: string, model: Model, parse: Parser, serialize: JValue -> string)
    requires "pdf_content" in context
    requires model(ReplaceAll(template, Placeholder, context["pdf_content"])).Ok?
    requires parse(model(ReplaceAll(template, Placeholder, context["pdf_content"])).value).None?
    ensures NoArray(model(ReplaceAll(template, Placeholder, context["pdf_content"])).value) ==>
      AnalyzeContent(context, template, model, parse, serialize) == Err(RuntimeError(FailurePrefix + NoArrayMessage))
    ensures NoChar(model(ReplaceAll(template, Placeholder, context["pdf_content"])).value, '[') ==>
      AnalyzeContent(context, template, model, parse, serialize) == Err(RuntimeError(FailurePrefix + NoArrayMessage))
  {
    var reply := model(ReplaceAll(template, Placeholder, context["pdf_content"])).value;
    if NoChar(reply, '[') {
      assert forall p :: BraceAfter(reply, p).None?;
    }
  }
}
