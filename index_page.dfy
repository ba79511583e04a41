/**
 * The `index.html` page that both presentation generators assemble: a fixed
 * header with the title and a slide counter, one `<div class="slide">` per
 * slide, and a fixed narration panel.
 */
module IndexPage {
  import opened Wrappers
  import opened Text
  import Patterns

  // ---------------------------------------------------------------------------
  // The page
  // ---------------------------------------------------------------------------

  const HeadBeforeTitle: string :=
    "<!DOCTYPE html>\n"
    + "<html lang=\"en\">\n"
    + "<head>\n"
    + "    <meta charset=\"UTF-8\">\n"
    + "    <meta name=\"viewport\" content=\"width=device-width, initial-scale=1.0\">\n"
    + "    <title>"
  const HeadMid: string :=
    " - Academic Presentation</title>\n"
    + "    <link rel=\"stylesheet\" href=\"styles.css\">\n"
    + "    <script src=\"https://cdn.jsdelivr.net/npm/chart.js\"></script>\n"
    + "    <link href=\"https://cdn.jsdelivr.net/npm/remixicon@2.5.0/fonts/remixicon.css\" rel=\"stylesheet\">\n"
    + "</head>\n"
    + "<body>\n"
    + "    <div class=\"presentation-container\">\n"
    + "        <div class=\"controls\">\n"
    + "            <button id=\"prev-slide\" title=\"Previous Slide\"><i class=\"ri-arrow-left-line\"></i></button>\n"
    + "            "
  const HeadTail: string :=
    "\n"
    + "            <button id=\"next-slide\" title=\"Next Slide\"><i class=\"ri-arrow-right-line\"></i></button>\n"
    + "            <button id=\"toggle-narration\" title=\"Toggle Narration\"><i class=\"ri-volume-up-line\"></i></button>\n"
    + "        </div>\n"
    + "        <div class=\"slides-container\">\n"
  const Footer: string :=
    "\n"
    + "        </div>\n"
    + "        <div class=\"narration-panel\" style=\"display: none;\">\n"
    + "            <div class=\"narration-header\">\n"
    + "                <h3>Narration</h3>\n"
    + "                <button id=\"close-narration\"><i class=\"ri-close-line\"></i></button>\n"
    + "            </div>\n"
    + "            <div class=\"narration-content\" id=\"narration-content\"></div>\n"
    + "        </div>\n"
    + "    </div>\n"
    + "    <script src=\"script.js\"></script>\n"
    + "</body>\n"
    + "</html>\n"

  const CounterOpen: string := "<span id=\"slide-counter\">"
  const CounterClose: string := "</span>"

  /** The counter text for N slides, before any navigation. */
  function CounterText(n: nat): string
  {
    "1 / " + NatToString(n)
  }

  /** The slide counter as the page first shows it. */
  function Counter(n: nat): string
  {
    CounterOpen + CounterText(n) + CounterClose
  }

  function Header(title: string, n: nat): string
  {
    HeadBeforeTitle + title + HeadMid + Counter(n) + HeadTail
  }

  /** The inline display style of slide `i` (0-based): only the first is shown. */
  function Display(i: nat): (d: string)
    ensures d == "" <==> i == 0
  {
    if i == 0 then "" else "none"
  }

  function SlideId(i: nat): string
  {
    "id=\"slide-" + NatToString(i + 1) + "\""
  }

  function SlideNumberAttribute(i: nat): string
  {
    "data-slide-number=\"" + NatToString(i + 1) + "\""
  }

  function SlideStyle(i: nat): string
  {
    "style=\"display: " + Display(i) + "\""
  }

  const SlideLead: string := "\n            <div class=\"slide\" "
  const SlideBodyIndent: string := ">\n                "

  const SlideClose: string := "\n            </div>\n"

  /** The div of slide `i` (0-based) around its cleaned HTML. */
  function SlideDiv(i: nat, body: string): string
  {
    SlideLead + SlideId(i) + " " + SlideNumberAttribute(i) + " " + SlideStyle(i) + SlideBodyIndent + body + SlideClose
  }

  /** A slide that contains `<html` is cut down to the stripped interior of its
      `<body>` element when it has one; any other slide is kept as it is. */
  function CleanSlideHtml(h: string): (r: string)
    ensures r == h || (Contains(h, "<html") && Trimmed(r))
    ensures !Contains(h, "<html") ==> r == h
  {
    if Contains(h, "<html") then
      match Patterns.FindBody(h)
      case Some(b) => Strip(b)
      case None => h
    else h
  }

  /** Each slide's HTML as the page embeds it. */
  function Cleaned(htmls: seq<string>): (bodies: seq<string>)
    ensures |bodies| == |htmls|
    ensures forall i :: 0 <= i < |htmls| ==> bodies[i] == CleanSlideHtml(htmls[i])
  {
    seq(|htmls|, i requires 0 <= i < |htmls| => CleanSlideHtml(htmls[i]))
  }

  /** The div of every slide, in order. */
  function SlideDivs(bodies: seq<string>): (ds: seq<string>)
    ensures |ds| == |bodies| && forall i :: 0 <= i < |bodies| ==> ds[i] == SlideDiv(i, bodies[i])
  {
    seq(|bodies|, i requires 0 <= i < |bodies| => SlideDiv(i, bodies[i]))
  }

  /** The divs of slides `lo` to `hi - 1`, in order. */
  function Divs(bodies: seq<string>, lo: nat, hi: nat): string
    requires lo <= hi <= |bodies|
  {
    ConcatRange(SlideDivs(bodies), lo, hi)
  }

  /** `_generate_index_html`, given each slide's `SlideHtml`. */
  function IndexHtml(title: string, htmls: seq<string>): string
  {
    Header(title, |htmls|) + Divs(Cleaned(htmls), 0, |htmls|) + Footer
  }

  /** The `html +=` loop that builds the page. */
  method BuildIndexHtml(title: string, htmls: seq<string>) returns (html: string)
    ensures html == IndexHtml(title, htmls)
  {
    html := AppendDivs(Header(title, |htmls|), htmls);
    html := html + Footer;
  }

  /** The loop over the slides: each slide's div appended in turn. */
  method AppendDivs(head: string, htmls: seq<string>) returns (html: string)
    ensures html == head + Divs(Cleaned(htmls), 0, |htmls|)
  {
    ghost var bodies := Cleaned(htmls);
    html := head;
    var i := 0;
    while i < |htmls|
      invariant i <= |htmls|
      invariant html == head + Divs(bodies, 0, i)
    {
      var slideHtml := CleanSlideHtml(htmls[i]);
      DivsStep(head, bodies, i);
      html := html + SlideDiv(i, slideHtml);
      i := i + 1;
    }
  }

  lemma DivsStep(head: string, bodies: seq<string>, i: nat)
    requires i < |bodies|
    ensures head + Divs(bodies, 0, i + 1) == head + Divs(bodies, 0, i) + SlideDiv(i, bodies[i])
  {
    ConcatAssoc(head, Divs(bodies, 0, i), SlideDiv(i, bodies[i]));
  }

  // ---------------------------------------------------------------------------
  // The shape of the page
  // ---------------------------------------------------------------------------

  /** Consecutive ranges of divs concatenate. */
  lemma DivsSplit(bodies: seq<string>, lo: nat, mid: nat, hi: nat)
    requires lo <= mid <= hi <= |bodies|
    ensures Divs(bodies, lo, hi) == Divs(bodies, lo, mid) + Divs(bodies, mid, hi)
  {
    ConcatRangeSplit(SlideDivs(bodies), lo, mid, hi);
  }

  lemma DivsOne(bodies: seq<string>, i: nat)
    requires i < |bodies|
    ensures Divs(bodies, i, i + 1) == SlideDiv(i, bodies[i])
  {
    ConcatRangeOne(SlideDivs(bodies), i);
  }

  /** What a middle piece contains, the whole contains. */
  lemma ContainsInside(p: string, c: string, q1: string, q2: string, q3: string, t: string)
    requires Contains(c, t)
    ensures Contains(p + c + q1 + q2 + q3, t)
  {
    ContainsPrepend(p, c, t);
    ContainsExtend(p + c, t, q1);
    ContainsExtend(p + c + q1, t, q2);
    ContainsExtend(p + c + q1 + q2, t, q3);
  }

  /** Slide `i`'s div sits between the divs before and after it, whatever
      surrounds the divs. */
  lemma DivsAround(htmls: seq<string>, i: nat, h: string, f: string)
    requires i < |htmls|
    ensures h + Divs(Cleaned(htmls), 0, |htmls|) + f
         == h + Divs(Cleaned(htmls), 0, i) + SlideDiv(i, CleanSlideHtml(htmls[i])) + Divs(Cleaned(htmls), i + 1, |htmls|) + f
  {
    var bodies := Cleaned(htmls);
    var n, d := |bodies|, SlideDiv(i, bodies[i]);
    var a, r := Divs(bodies, 0, i), Divs(bodies, i + 1, n);
    DivsSplit(bodies, 0, i, n);
    DivsSplit(bodies, i, i + 1, n);
    DivsOne(bodies, i);
    SplitMiddle(h, a, d, r, f);
  }

  /** What surrounds the divs contains slide `i`'s div. */
  lemma DivInside(htmls: seq<string>, i: nat, h: string, f: string)
    requires i < |htmls|
    ensures Contains(h + Divs(Cleaned(htmls), 0, |htmls|) + f, SlideDiv(i, CleanSlideHtml(htmls[i])))
  {
    var bodies := Cleaned(htmls);
    var d := SlideDiv(i, bodies[i]);
    var a, r := Divs(bodies, 0, i), Divs(bodies, i + 1, |bodies|);
    DivsAround(htmls, i, h, f);
    ContainsWhole(d);
    ContainsInside(h + a, d, r, f, "", d);
    assert h + a + d + r + f + "" == h + a + d + r + f;
  }

  lemma SplitMiddle(h: string, a: string, d: string, r: string, f: string)
    ensures h + (a + (d + r)) + f == h + a + d + r + f
  {
  }

  lemma ContainsWhole(d: string)
    ensures Contains(d, d)
  {
    ContainsInConcat("", d, "");
    assert "" + d + "" == d;
  }

  /** The counter shows in what surrounds it. */
  lemma CounterInside(lead: string, n: nat, rest: string, tail: string, f: string)
    ensures Contains(lead + Counter(n) + rest + tail + f, Counter(n))
    ensures Contains(lead + Counter(n) + rest + tail + f, CounterText(n))
  {
    ContainsWhole(Counter(n));
    ContainsInConcat(CounterOpen, CounterText(n), CounterClose);
    ContainsInside(lead, Counter(n), rest, tail, f, Counter(n));
    ContainsInside(lead, Counter(n), rest, tail, f, CounterText(n));
  }

  /** The page for N slides shows the counter `1 / N`. */
  lemma IndexCounter(title: string, htmls: seq<string>)
    ensures Contains(IndexHtml(title, htmls), Counter(|htmls|))
    ensures Contains(IndexHtml(title, htmls), CounterText(|htmls|))
  {
    CounterInside(HeadBeforeTitle + title + HeadMid, |htmls|, HeadTail, Divs(Cleaned(htmls), 0, |htmls|), Footer);
  }

  /** The page is the header, then the divs of slides 0 to N-1 in that order,
      then the footer. */
  lemma IndexLayout(title: string, htmls: seq<string>, i: nat)
    requires i < |htmls|
    ensures IndexHtml(title, htmls)
         == Header(title, |htmls|) + Divs(Cleaned(htmls), 0, i) + SlideDiv(i, CleanSlideHtml(htmls[i]))
            + Divs(Cleaned(htmls), i + 1, |htmls|) + Footer
  {
    DivsAround(htmls, i, Header(title, |htmls|), Footer);
  }

  /** Every slide's div is in the page. */
  lemma SlideInIndex(title: string, htmls: seq<string>, i: nat)
    requires i < |htmls|
    ensures Contains(IndexHtml(title, htmls), SlideDiv(i, CleanSlideHtml(htmls[i])))
  {
    DivInside(htmls, i, Header(title, |htmls|), Footer);
  }

  /** Slide `i` (0-based) carries the id and number `i + 1`, and an empty
      display style exactly when it is the first slide (`none` otherwise). */
  lemma SlideDivAttributes(i: nat, body: string)
    ensures Contains(SlideDiv(i, body), "id=\"slide-" + NatToString(i + 1) + "\"")
    ensures Contains(SlideDiv(i, body), "data-slide-number=\"" + NatToString(i + 1) + "\"")
    ensures Contains(SlideDiv(i, body), "style=\"display: " + (if i == 0 then "" else "none") + "\"")
  {
    var id, num, st := SlideId(i), SlideNumberAttribute(i), SlideStyle(i);
    var x0 := SlideLead + id;
    var x1 := x0 + " " + num;
    var x2 := x1 + " " + st;
    ContainsInConcat(SlideLead, id, "");
    assert SlideLead + id + "" == x0;
    ContainsExtend(x0, id, " ");
    ContainsExtend(x0 + " ", id, num);
    ContainsInConcat(x0 + " ", num, "");
    assert x0 + " " + num + "" == x1;
    ContainsExtend(x1, id, " ");
    ContainsExtend(x1, num, " ");
    ContainsExtend(x1 + " ", id, st);
    ContainsExtend(x1 + " ", num, st);
    ContainsInConcat(x1 + " ", st, "");
    assert x1 + " " + st + "" == x2;
    ContainsExtend(x2, id, SlideBodyIndent);
    ContainsExtend(x2, num, SlideBodyIndent);
    ContainsExtend(x2, st, SlideBodyIndent);
    ContainsExtend(x2 + SlideBodyIndent, id, body);
    ContainsExtend(x2 + SlideBodyIndent, num, body);
    ContainsExtend(x2 + SlideBodyIndent, st, body);
    ContainsExtend(x2 + SlideBodyIndent + body, id, SlideClose);
    ContainsExtend(x2 + SlideBodyIndent + body, num, SlideClose);
    ContainsExtend(x2 + SlideBodyIndent + body, st, SlideClose);
  }

  /** A complete HTML document is cut down to the stripped content of its body. */
  lemma CleanDocument(pre: string, attrs: string, x: string, post: string)
    requires Contains(pre, "<html")
    requires !Contains(pre + "<bod", Patterns.BodyOpen) && !Contains(attrs, ">") && !Contains(x, Patterns.BodyClose)
    ensures CleanSlideHtml(pre + Patterns.BodyOpen + attrs + ">" + x + Patterns.BodyClose + post) == Strip(x)
  {
    var h := pre + Patterns.BodyOpen + attrs + ">" + x + Patterns.BodyClose + post;
    Patterns.FindBodyOfDocument(pre, attrs, x, post);
    var j :| 0 <= j <= |pre| - 5 && Occurs(pre, "<html", j);
    assert h[..|pre|] == pre;
    assert h[j..j + 5] == pre[j..j + 5];
    assert Occurs(h, "<html", j);
  }
}
