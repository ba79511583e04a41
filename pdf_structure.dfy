/** Structure analysis of an extracted PDF: the line-level header heuristic,
    header confidence, section estimation and the font-profile scan. */
module PdfStructure {
  import opened Wrappers
  import opened Text

  // ---------------------------------------------------------------------------
  // Header heuristic
  // ---------------------------------------------------------------------------

  /** Words that open a heading (matched on the lower-cased line). */
  const HeadingWords: seq<string> := ["chương", "bài", "phần", "mục", "chapter", "section"]

  /** `any(s.startswith(w) for w in words)` */
  predicate AnyPrefix(s: string, words: seq<string>)
  {
    |words| > 0 && (StartsWith(s, words[0]) || AnyPrefix(s, words[1..]))
  }

  /** The recursive test is the existential one. */
  lemma {:induction false} AnyPrefixExists(s: string, words: seq<string>)
    ensures AnyPrefix(s, words) <==> exists i :: 0 <= i < |words| && StartsWith(s, words[i])
  {
    if |words| > 0 {
      AnyPrefixExists(s, words[1..]);
      if !StartsWith(s, words[0]) && exists i :: 0 <= i < |words| && StartsWith(s, words[i]) {
        var i :| 0 <= i < |words| && StartsWith(s, words[i]);
        assert words[1..][i - 1] == words[i];
      }
    }
  }

  /** `re.match(r'^\d+\.?\s+[A-Z…Đ]', line)`: digits, an optional dot, at least
      one whitespace character, then a capital (ASCII or Vietnamese).  Neither
      greedy run can give back anything useful, so one pass decides. */
  predicate NumberedHeading(line: string)
  {
    var d := RunEnd(line, 0, IsDigit);
    var a := if d < |line| && line[d] == '.' then d + 1 else d;
    var w := RunEnd(line, a, IsSpace);
    d > 0 && a < w < |line| && IsUpperChar(line[w])
  }

  /** Every line of the form digits, optional dot, whitespace, capital, anything matches. */
  lemma NumberedHeadingOf(ds: string, dot: string, ws: string, c: char, rest: string)
    requires |ds| > 0 && AllDigits(ds) && (dot == "" || dot == ".")
    requires |ws| > 0 && AllSpace(ws) && IsUpperChar(c)
    ensures NumberedHeading(ds + dot + ws + [c] + rest)
  {
    var line := ds + dot + ws + [c] + rest;
    var a := |ds| + |dot|;
    var w := a + |ws|;
    assert forall k :: 0 <= k < |ds| ==> line[k] == ds[k];
    assert |ds| < |line| && line[|ds|] == (if dot == "" then ws[0] else '.');
    assert !IsDigit(line[|ds|]);
    RunEndUnique(line, 0, |ds|, IsDigit);
    assert forall k :: a <= k < w ==> line[k] == ws[k - a];
    assert line[w] == c;
    CharClassesDisjoint(c);
    RunEndUnique(line, a, w, IsSpace);
  }

  /** A match needs a leading digit and a later capital. */
  lemma NumberedHeadingShape(line: string)
    requires NumberedHeading(line)
    ensures |line| >= 3 && IsDigit(line[0])
    ensures
      exists w :: 2 <= w < |line| && IsUpperChar(line[w]) && IsSpace(line[w - 1])
  {
    var d := RunEnd(line, 0, IsDigit);
    var a := if d < |line| && line[d] == '.' then d + 1 else d;
    var w := RunEnd(line, a, IsSpace);
    assert IsSpace(line[w - 1]);
    CharClassesDisjoint(line[d - 1]);
    assert w >= 2;
  }

  /** `_is_likely_header` for a stripped line. */
  predicate IsLikelyHeader(line: string)
  {
    0 < |line| <= 200 &&
    (IsUpper(line)
     || StartsWith(line, "#")
     || AnyPrefix(Lower(line), HeadingWords)
     || (EndsWith(line, ":") && |line| < 100)
     || NumberedHeading(line))
  }

  /** Empty and over-long lines are never headers; a short line that is a
      numbered heading, or that ends with a colon, always is. */
  lemma LikelyHeaderBounds(line: string)
    ensures |line| == 0 || |line| > 200 ==> !IsLikelyHeader(line)
    ensures 0 < |line| < 100 && EndsWith(line, ":") ==> IsLikelyHeader(line)
    ensures 0 < |line| <= 200 && NumberedHeading(line) ==> IsLikelyHeader(line)
  {
  }

  /** A line numbered "1. " followed by a capitalised title, such as
      "1. Introduction", is a header. */
  lemma NumberedLineIsHeader(title: string)
    requires 0 < |title| <= 197 && IsUpperChar(title[0])
    ensures IsLikelyHeader("1. " + title)
  {
    var line := "1. " + title;
    assert line[0] == '1' && line[1] == '.' && line[2] == ' ' && line[3] == title[0];
    RunEndUnique(line, 0, 1, IsDigit);
    CharClassesDisjoint(title[0]);
    RunEndUnique(line, 2, 3, IsSpace);
    assert NumberedHeading(line);
    LikelyHeaderBounds(line);
  }

  // ---------------------------------------------------------------------------
  // Header confidence, in tenths
  // ---------------------------------------------------------------------------

  /** The weights of `_calculate_header_confidence`, in tenths: 3 for a length in
      [10, 100], 2 for the first line or one after a blank line, 3 for an
      all-capitals line, 2 for a trailing colon. */
  function HeaderScore(line: string, lines: seq<string>, i: nat): nat
    requires i <= |lines|
  {
    (if 10 <= |line| <= 100 then 3 else 0)
    + (if i == 0 || AllSpace(lines[i - 1]) then 2 else 0)
    + (if IsUpper(line) then 3 else 0)
    + (if EndsWith(line, ":") then 2 else 0)
  }

  /** The confidence accumulated factor by factor and capped at ten tenths. */
  method HeaderConfidence(line: string, lines: seq<string>, i: nat) returns (c: nat)
    requires i <= |lines|
    ensures c == HeaderScore(line, lines, i)
    ensures c <= 10
  {
    c := 0;
    if 10 <= |line| <= 100 {
      c := c + 3;
    }
    if i == 0 || (i > 0 && Strip(lines[i - 1]) == "") {
      c := c + 2;
    }
    if IsUpper(line) {
      c := c + 3;
    }
    if EndsWith(line, ":") {
      c := c + 2;
    }
    c := Min(c, 10);
  }

  /** A full score needs all four factors; an all-capitals line scores at least 3. */
  lemma ScoreFactors(line: string, lines: seq<string>, i: nat)
    requires i <= |lines|
    ensures HeaderScore(line, lines, i) == 10 <==>
      (10 <= |line| <= 100 && (i == 0 || AllSpace(lines[i - 1])) && IsUpper(line) && EndsWith(line, ":"))
    ensures IsUpper(line) ==> HeaderScore(line, lines, i) >= 3
  {
  }

  // ---------------------------------------------------------------------------
  // Section estimation
  // ---------------------------------------------------------------------------

  /** One `[level, title, page]` entry of the table of contents. */
  datatype TocEntry = TocEntry(level: int, title: string, page: int)

  datatype Section =
    | TocSection(title: string, level: int, page: int)
    | EstimatedHeader(title: string, page: int, confidence: nat)

  /** The header section line `i` of page `pageNo` gives: one when its stripped
      form is a likely header, none otherwise or past the last line. */
  function HeaderAt(lines: seq<string>, i: nat, pageNo: nat): seq<Section>
  {
    if i >= |lines| then []
    else
      var line := Strip(lines[i]);
      if IsLikelyHeader(line) then [EstimatedHeader(line, pageNo, HeaderScore(line, lines, i))] else []
  }

  /** The sections `header` gives for `lines[..n]` of page `pageNo`, line by line. */
  function HeadersUpTo(lines: seq<string>, n: nat, pageNo: nat, header: (seq<string>, nat, nat) -> seq<Section>): seq<Section>
    requires n <= |lines|
  {
    if n == 0 then [] else HeadersUpTo(lines, n - 1, pageNo, header) + header(lines, n - 1, pageNo)
  }

  /** The likely headers of one page's text, split into lines by
      `text.split('\n')`. */
  function PageHeaders(text: string, pageNo: nat): seq<Section>
  {
    var lines := Split(text, "\n");
    HeadersUpTo(lines, |lines|, pageNo, HeaderAt)
  }

  /** The sections `page` gives for the first `n` pages, page after page,
      numbered from 1. */
  function PagesHeaders(pages: seq<string>, n: nat, page: (string, nat) -> seq<Section>): seq<Section>
    requires n <= |pages|
  {
    if n == 0 then [] else PagesHeaders(pages, n - 1, page) + page(pages[n - 1], n)
  }

  /** `_estimate_sections`: the table of contents when it is non-empty, otherwise
      the likely headers of every page, in order. */
  function Sections(toc: seq<TocEntry>, pages: seq<string>): seq<Section>
  {
    if |toc| > 0 then seq(|toc|, k requires 0 <= k < |toc| => TocSection(toc[k].title, toc[k].level, toc[k].page))
    else PagesHeaders(pages, |pages|, PageHeaders)
  }

  method EstimateSections(toc: seq<TocEntry>, pages: seq<string>) returns (sections: seq<Section>)
    ensures sections == Sections(toc, pages)
  {
    if |toc| > 0 {
      sections := [];
      for k := 0 to |toc|
        invariant sections == seq(k, j requires 0 <= j < k => TocSection(toc[j].title, toc[j].level, toc[j].page))
      {
        sections := sections + [TocSection(toc[k].title, toc[k].level, toc[k].page)];
      }
    } else {
      sections := PagesSections(pages);
    }
  }

  /** The text-pattern branch: every page's headers, page after page. */
  method PagesSections(pages: seq<string>) returns (sections: seq<Section>)
    ensures sections == PagesHeaders(pages, |pages|, PageHeaders)
  {
    sections := [];
    for p := 0 to |pages|
      invariant sections == PagesHeaders(pages, p, PageHeaders)
    {
      var lines := Split(pages[p], "\n");
      var found := PageSections(lines, p + 1);
      sections := sections + found;
    }
  }

  /** The likely headers of one page's lines, each with its confidence. */
  method PageSections(lines: seq<string>, pageNo: nat) returns (sections: seq<Section>)
    ensures sections == HeadersUpTo(lines, |lines|, pageNo, HeaderAt)
  {
    sections := [];
    for i := 0 to |lines|
      invariant sections == HeadersUpTo(lines, i, pageNo, HeaderAt)
    {
      var found := LineHeader(lines, i, pageNo);
      sections := sections + found;
    }
  }

  /** One line: a likely header becomes a section with its confidence. */
  method LineHeader(lines: seq<string>, i: nat, pageNo: nat) returns (found: seq<Section>)
    requires i < |lines|
    ensures found == HeaderAt(lines, i, pageNo)
  {
    found := [];
    var line := Strip(lines[i]);
    if IsLikelyHeader(line) {
      var c := HeaderConfidence(line, lines, i);
      found := [EstimatedHeader(line, pageNo, c)];
    }
  }

  /** What an estimated section promises: a stripped title that passes the
      header test, a page number of the document and a confidence of at most
      ten tenths. */
  predicate GoodHeader(s: Section, pageCount: nat)
  {
    s.EstimatedHeader? && IsLikelyHeader(s.title) && Trimmed(s.title) && 1 <= s.page <= pageCount && s.confidence <= 10
  }

  predicate AllGood(ss: seq<Section>, pageCount: nat)
  {
    forall k :: 0 <= k < |ss| ==> GoodHeader(ss[k], pageCount)
  }

  /** Every section `header` gives on a page of the document is good. */
  ghost predicate GoodRule(header: (seq<string>, nat, nat) -> seq<Section>, pageCount: nat)
  {
    forall lines: seq<string>, i: nat, pageNo: nat :: 1 <= pageNo <= pageCount ==> AllGood(header(lines, i, pageNo), pageCount)
  }

  lemma AllGoodConcat(a: seq<Section>, b: seq<Section>, pageCount: nat)
    requires AllGood(a, pageCount) && AllGood(b, pageCount)
    ensures AllGood(a + b, pageCount)
  {
    assert forall k :: 0 <= k < |a| ==> (a + b)[k] == a[k];
    assert forall k :: |a| <= k < |a + b| ==> (a + b)[k] == b[k - |a|];
  }

  /** A section found on a line is a stripped likely header with a confidence
      of at most ten tenths, on any page of the document. */
  lemma HeaderAtGood(pageCount: nat)
    ensures GoodRule(HeaderAt, pageCount)
  {
    forall lines: seq<string>, i: nat, pageNo: nat | 1 <= pageNo <= pageCount
      ensures AllGood(HeaderAt(lines, i, pageNo), pageCount)
    {
      if i < |lines| {
        var line := Strip(lines[i]);
        if IsLikelyHeader(line) {
          assert GoodHeader(EstimatedHeader(line, pageNo, HeaderScore(line, lines, i)), pageCount);
        }
      }
    }
  }

  lemma {:induction false} HeadersUpToGood(lines: seq<string>, n: nat, pageNo: nat, pageCount: nat, header: (seq<string>, nat, nat) -> seq<Section>)
    requires n <= |lines| && 1 <= pageNo <= pageCount && GoodRule(header, pageCount)
    ensures AllGood(HeadersUpTo(lines, n, pageNo, header), pageCount)
  {
    if n > 0 {
      HeadersUpToGood(lines, n - 1, pageNo, pageCount, header);
      AllGoodConcat(HeadersUpTo(lines, n - 1, pageNo, header), header(lines, n - 1, pageNo), pageCount);
    }
  }

  /** Every section one page's text gives is good. */
  lemma PageHeadersGood(text: string, pageNo: nat, pageCount: nat)
    requires 1 <= pageNo <= pageCount
    ensures AllGood(PageHeaders(text, pageNo), pageCount)
  {
    var lines := Split(text, "\n");
    HeaderAtGood(pageCount);
    HeadersUpToGood(lines, |lines|, pageNo, pageCount, HeaderAt);
  }

  lemma {:induction false} PagesHeadersGood(pages: seq<string>, n: nat, page: (string, nat) -> seq<Section>)
    requires n <= |pages|
    requires forall text: string, pageNo: nat :: 1 <= pageNo <= |pages| ==> AllGood(page(text, pageNo), |pages|)
    ensures AllGood(PagesHeaders(pages, n, page), |pages|)
  {
    if n > 0 {
      PagesHeadersGood(pages, n - 1, page);
      AllGoodConcat(PagesHeaders(pages, n - 1, page), page(pages[n - 1], n), |pages|);
    }
  }

  /** With a table of contents the sections are its entries, one each, in
      order, with their level and page; without one, every section is a good
      estimated header. */
  lemma SectionsShape(toc: seq<TocEntry>, pages: seq<string>)
    ensures |toc| > 0 ==> |Sections(toc, pages)| == |toc|
    ensures |toc| > 0 ==> forall k :: 0 <= k < |toc| ==>
      Sections(toc, pages)[k] == TocSection(toc[k].title, toc[k].level, toc[k].page)
    ensures |toc| == 0 ==> forall k :: 0 <= k < |Sections(toc, pages)| ==> GoodHeader(Sections(toc, pages)[k], |pages|)
  {
    if |toc| == 0 {
      forall text: string, pageNo: nat | 1 <= pageNo <= |pages|
        ensures AllGood(PageHeaders(text, pageNo), |pages|)
      {
        PageHeadersGood(text, pageNo, |pages|);
      }
      PagesHeadersGood(pages, |pages|, PageHeaders);
    }
  }

  /** The headers found among fewer lines start the headers found among more. */
  lemma HeadersUpToPrefix(lines: seq<string>, m: nat, n: nat, pageNo: nat, header: (seq<string>, nat, nat) -> seq<Section>, k: nat)
    requires m <= n <= |lines| && k < |HeadersUpTo(lines, m, pageNo, header)|
    ensures k < |HeadersUpTo(lines, n, pageNo, header)|
    ensures HeadersUpTo(lines, n, pageNo, header)[k] == HeadersUpTo(lines, m, pageNo, header)[k]
  {
  }

  lemma HeadersUpToGrows(lines: seq<string>, m: nat, n: nat, pageNo: nat, header: (seq<string>, nat, nat) -> seq<Section>)
    requires m <= n <= |lines|
    ensures |HeadersUpTo(lines, m, pageNo, header)| <= |HeadersUpTo(lines, n, pageNo, header)|
  {
  }

  /** A line that gives a section places it after the sections of the lines
      before it. */
  lemma HeaderLineAt(lines: seq<string>, n: nat, pageNo: nat, header: (seq<string>, nat, nat) -> seq<Section>, i: nat)
    requires i < n <= |lines| && |header(lines, i, pageNo)| == 1
    ensures |HeadersUpTo(lines, i, pageNo, header)| < |HeadersUpTo(lines, i + 1, pageNo, header)|
    ensures |HeadersUpTo(lines, i, pageNo, header)| < |HeadersUpTo(lines, n, pageNo, header)|
    ensures HeadersUpTo(lines, n, pageNo, header)[|HeadersUpTo(lines, i, pageNo, header)|] == header(lines, i, pageNo)[0]
  {
    HeadersUpToPrefix(lines, i + 1, n, pageNo, header, |HeadersUpTo(lines, i, pageNo, header)|);
  }

  /** A line that gives a section gives it to its page. */
  lemma HeaderLineIn(lines: seq<string>, pageNo: nat, header: (seq<string>, nat, nat) -> seq<Section>, i: nat)
    requires i < |lines| && |header(lines, i, pageNo)| == 1
    ensures
      exists j :: 0 <= j < |HeadersUpTo(lines, |lines|, pageNo, header)|
        && HeadersUpTo(lines, |lines|, pageNo, header)[j] == header(lines, i, pageNo)[0]
  {
    HeaderLineAt(lines, |lines|, pageNo, header, i);
    var j := |HeadersUpTo(lines, i, pageNo, header)|;
    assert HeadersUpTo(lines, |lines|, pageNo, header)[j] == header(lines, i, pageNo)[0];
  }

  /** Two lines that give sections, the first before the second, give them in
      that order. */
  lemma HeaderLinesOrdered(lines: seq<string>, pageNo: nat, header: (seq<string>, nat, nat) -> seq<Section>, i: nat, i': nat)
    requires i < i' < |lines| && |header(lines, i, pageNo)| == 1 && |header(lines, i', pageNo)| == 1
    ensures
      exists j, j' :: 0 <= j < j' < |HeadersUpTo(lines, |lines|, pageNo, header)|
        && HeadersUpTo(lines, |lines|, pageNo, header)[j] == header(lines, i, pageNo)[0]
        && HeadersUpTo(lines, |lines|, pageNo, header)[j'] == header(lines, i', pageNo)[0]
  {
    HeaderLineAt(lines, |lines|, pageNo, header, i);
    HeaderLineAt(lines, |lines|, pageNo, header, i');
    HeadersUpToGrows(lines, i + 1, i', pageNo, header);
    var j, j' := |HeadersUpTo(lines, i, pageNo, header)|, |HeadersUpTo(lines, i', pageNo, header)|;
    assert j < j';
  }

  /** The headers of fewer pages start the headers of more. */
  lemma PagesHeadersPrefix(pages: seq<string>, m: nat, n: nat, page: (string, nat) -> seq<Section>, k: nat)
    requires m <= n <= |pages| && k < |PagesHeaders(pages, m, page)|
    ensures k < |PagesHeaders(pages, n, page)|
    ensures PagesHeaders(pages, n, page)[k] == PagesHeaders(pages, m, page)[k]
  {
  }

  lemma PagesHeadersGrows(pages: seq<string>, m: nat, n: nat, page: (string, nat) -> seq<Section>)
    requires m <= n <= |pages|
    ensures |PagesHeaders(pages, m, page)| <= |PagesHeaders(pages, n, page)|
  {
  }

  /** Section `j` of page `p` (counted from 0) follows the sections of the
      pages before it. */
  lemma PageSectionAt(pages: seq<string>, n: nat, page: (string, nat) -> seq<Section>, p: nat, j: nat)
    requires p < n <= |pages| && j < |page(pages[p], p + 1)|
    ensures var k := |PagesHeaders(pages, p, page)| + j;
      k < |PagesHeaders(pages, p + 1, page)| <= |PagesHeaders(pages, n, page)|
      && PagesHeaders(pages, n, page)[k] == page(pages[p], p + 1)[j]
  {
    var before, here := PagesHeaders(pages, p, page), page(pages[p], p + 1);
    var k := |before| + j;
    assert PagesHeaders(pages, p + 1, page) == before + here;
    assert (before + here)[k] == here[j];
    PagesHeadersPrefix(pages, p + 1, n, page, k);
    PagesHeadersGrows(pages, p + 1, n, page);
  }

  /** Two sections of pages, the first on an earlier page or earlier on the
      same page, come in that order. */
  lemma PagesHeadersOrdered(pages: seq<string>, n: nat, page: (string, nat) -> seq<Section>, p: nat, j: nat, p': nat, j': nat)
    requires p < n <= |pages| && j < |page(pages[p], p + 1)|
    requires p' < n && j' < |page(pages[p'], p' + 1)|
    requires p < p' || (p == p' && j < j')
    ensures
      exists k, k' :: 0 <= k < k' < |PagesHeaders(pages, n, page)|
        && PagesHeaders(pages, n, page)[k] == page(pages[p], p + 1)[j]
        && PagesHeaders(pages, n, page)[k'] == page(pages[p'], p' + 1)[j']
  {
    PageSectionAt(pages, n, page, p, j);
    PageSectionAt(pages, n, page, p', j');
    PageSectionBefore(pages, page, p, j, p', j');
  }

  /** Where the earlier section sits among all sections comes before where the
      later one does. */
  lemma PageSectionBefore(pages: seq<string>, page: (string, nat) -> seq<Section>, p: nat, j: nat, p': nat, j': nat)
    requires p < p' < |pages| || (p == p' < |pages| && j < j')
    requires j < |page(pages[p], p + 1)|
    ensures |PagesHeaders(pages, p, page)| + j < |PagesHeaders(pages, p', page)| + j'
  {
    if p < p' {
      PagesHeadersGrows(pages, p + 1, p', page);
    }
  }

  /** A line whose stripped form is a likely header gives one section: that
      title, its page and its confidence. */
  lemma HeaderLine(lines: seq<string>, i: nat, pageNo: nat)
    requires i < |lines| && IsLikelyHeader(Strip(lines[i]))
    ensures HeaderAt(lines, i, pageNo) == [EstimatedHeader(Strip(lines[i]), pageNo, HeaderScore(Strip(lines[i]), lines, i))]
  {
  }

  /** A likely-header line of a page gives a section of that page. */
  lemma PageHeaderLine(text: string, pageNo: nat, i: nat) returns (j: nat)
    requires i < |Split(text, "\n")| && IsLikelyHeader(Strip(Split(text, "\n")[i]))
    ensures var lines := Split(text, "\n");
      j < |PageHeaders(text, pageNo)|
      && PageHeaders(text, pageNo)[j] == EstimatedHeader(Strip(lines[i]), pageNo, HeaderScore(Strip(lines[i]), lines, i))
  {
    var lines := Split(text, "\n");
    var hs := HeadersUpTo(lines, |lines|, pageNo, HeaderAt);
    HeaderLine(lines, i, pageNo);
    HeaderLineIn(lines, pageNo, HeaderAt, i);
    j :| 0 <= j < |hs| && hs[j] == HeaderAt(lines, i, pageNo)[0];
    assert PageHeaders(text, pageNo)[j] == hs[j];
  }

  /** Two likely-header lines of a page give its sections in line order. */
  lemma PageHeaderLinesOrdered(text: string, pageNo: nat, i: nat, i': nat) returns (j: nat, j': nat)
    requires i < i' < |Split(text, "\n")|
    requires IsLikelyHeader(Strip(Split(text, "\n")[i])) && IsLikelyHeader(Strip(Split(text, "\n")[i']))
    ensures var lines := Split(text, "\n");
      j < j' < |PageHeaders(text, pageNo)|
      && PageHeaders(text, pageNo)[j] == EstimatedHeader(Strip(lines[i]), pageNo, HeaderScore(Strip(lines[i]), lines, i))
      && PageHeaders(text, pageNo)[j'] == EstimatedHeader(Strip(lines[i']), pageNo, HeaderScore(Strip(lines[i']), lines, i'))
  {
    var lines := Split(text, "\n");
    var hs := HeadersUpTo(lines, |lines|, pageNo, HeaderAt);
    HeaderLine(lines, i, pageNo);
    HeaderLine(lines, i', pageNo);
    HeaderLinesOrdered(lines, pageNo, HeaderAt, i, i');
    j, j' :| 0 <= j < j' < |hs| && hs[j] == HeaderAt(lines, i, pageNo)[0] && hs[j'] == HeaderAt(lines, i', pageNo)[0];
    assert PageHeaders(text, pageNo)[j] == hs[j] && PageHeaders(text, pageNo)[j'] == hs[j'];
  }

  /** Line `i` of page `p` (both counted from 0) is, once stripped, a likely
      header. */
  predicate IsHeaderLine(pages: seq<string>, p: nat, i: nat)
  {
    p < |pages| && i < |Split(pages[p], "\n")| && IsLikelyHeader(Strip(Split(pages[p], "\n")[i]))
  }

  /** The section such a line stands for: its stripped text, its page number
      (counted from 1) and its confidence. */
  function LineSection(pages: seq<string>, p: nat, i: nat): Section
    requires IsHeaderLine(pages, p, i)
  {
    var lines := Split(pages[p], "\n");
    EstimatedHeader(Strip(lines[i]), p + 1, HeaderScore(Strip(lines[i]), lines, i))
  }

  /** Without a table of contents nothing is missed: every line of every page
      whose stripped form is a likely header gives its section. */
  lemma SectionsComplete(pages: seq<string>, p: nat, i: nat)
    requires IsHeaderLine(pages, p, i)
    ensures LineSection(pages, p, i) in Sections([], pages)
  {
    var j := PageHeaderLine(pages[p], p + 1, i);
    PageSectionAt(pages, |pages|, PageHeaders, p, j);
  }

  /** Without a table of contents the sections come page by page, each page's
      in its own order: a section of an earlier page, or an earlier section of
      the same page, comes first. */
  lemma SectionsPagesOrdered(pages: seq<string>, p: nat, j: nat, p': nat, j': nat)
    requires p < |pages| && j < |PageHeaders(pages[p], p + 1)|
    requires p' < |pages| && j' < |PageHeaders(pages[p'], p' + 1)|
    requires p < p' || (p == p' && j < j')
    ensures
      exists k, k' :: 0 <= k < k' < |Sections([], pages)|
        && Sections([], pages)[k] == PageHeaders(pages[p], p + 1)[j]
        && Sections([], pages)[k'] == PageHeaders(pages[p'], p' + 1)[j']
  {
    PagesHeadersOrdered(pages, |pages|, PageHeaders, p, j, p', j');
    var ss := PagesHeaders(pages, |pages|, PageHeaders);
    var k, k' :| 0 <= k < k' < |ss| && ss[k] == PageHeaders(pages[p], p + 1)[j] && ss[k'] == PageHeaders(pages[p'], p' + 1)[j'];
    assert Sections([], pages)[k] == ss[k] && Sections([], pages)[k'] == ss[k'];
  }

  /** Without a table of contents the headers of one page keep their line
      order among the sections. */
  lemma SectionsWithinPage(pages: seq<string>, p: nat, i: nat, i': nat)
    requires IsHeaderLine(pages, p, i) && IsHeaderLine(pages, p, i') && i < i'
    ensures
      exists k, k' :: 0 <= k < k' < |Sections([], pages)|
        && Sections([], pages)[k] == LineSection(pages, p, i)
        && Sections([], pages)[k'] == LineSection(pages, p, i')
  {
    var j, j' := PageHeaderLinesOrdered(pages[p], p + 1, i, i');
    SectionsPagesOrdered(pages, p, j, p, j');
  }

  // ---------------------------------------------------------------------------
  // Font analysis
  // ---------------------------------------------------------------------------

  /** A text span as PyMuPDF reports it. */
  datatype Span = Span(font: string, size: real, flags: int, text: string)

  /** A block of `page.get_text("dict")`; image blocks have no `lines`. */
  datatype Block = Block(lines: Option<seq<seq<Span>>>)

  type Page = seq<Block>

  /** The key `f"{font}_{size}_{flags}"`: neither a float nor an int prints an
      underscore, so the string determines the triple and the triple stands for it. */
  datatype FontKey = FontKey(font: string, size: real, flags: int)

  datatype FontProfile = FontProfile(font: string, size: real, flags: int, isBold: bool, isItalic: bool, count: nat, sampleText: string)

  function KeyOf(s: Span): FontKey
  {
    FontKey(s.font, s.size, s.flags)
  }

  /** `bool(flags & 2**b)`; Dafny's division by a positive number floors, as
      Python's two's-complement `&` does for negative flags. */
  predicate FlagBit(flags: int, b: nat)
  {
    (flags / Pow2(b)) % 2 == 1
  }

  function Pow2(b: nat): (r: nat)
    ensures r > 0
  {
    if b == 0 then 1 else 2 * Pow2(b - 1)
  }

  /** One span counted into the profiles. */
  function AddSpan(info: map<FontKey, FontProfile>, s: Span): map<FontKey, FontProfile>
  {
    var k := KeyOf(s);
    var p := if k in info then info[k]
      else FontProfile(s.font, s.size, s.flags, FlagBit(s.flags, 4), FlagBit(s.flags, 1), 0, "");
    info[k := p.(count := p.count + 1, sampleText := if |p.sampleText| < 100 then p.sampleText + s.text else p.sampleText)]
  }

  /** The profiles after scanning `spans` in order. */
  function Scan(spans: seq<Span>): map<FontKey, FontProfile>
  {
    if |spans| == 0 then map[] else AddSpan(Scan(spans[..|spans| - 1]), spans[|spans| - 1])
  }

  function ConcatSpans(lines: seq<seq<Span>>): seq<Span>
  {
    if |lines| == 0 then [] else ConcatSpans(lines[..|lines| - 1]) + lines[|lines| - 1]
  }

  function BlockSpans(b: Block): seq<Span>
  {
    if b.lines.Some? then ConcatSpans(b.lines.value) else []
  }

  function BlocksSpans(blocks: seq<Block>): seq<Span>
  {
    if |blocks| == 0 then [] else BlocksSpans(blocks[..|blocks| - 1]) + BlockSpans(blocks[|blocks| - 1])
  }

  function PagesSpans(pages: seq<Page>): seq<Span>
  {
    if |pages| == 0 then [] else PagesSpans(pages[..|pages| - 1]) + BlocksSpans(pages[|pages| - 1])
  }

  /** `_analyze_document_fonts`: the profiles of the spans of the first five pages. */
  function FontInfo(pages: seq<Page>): map<FontKey, FontProfile>
  {
    Scan(PagesSpans(pages[..Min(5, |pages|)]))
  }

  method AnalyzeFonts(pages: seq<Page>) returns (info: map<FontKey, FontProfile>)
    ensures info == FontInfo(pages)
  {
    info := map[];
    var n := Min(5, |pages|);
    for p := 0 to n
      invariant info == Scan(PagesSpans(pages[..p]))
    {
      info := AddPage(info, PagesSpans(pages[..p]), pages[p]);
      assert pages[..p + 1][..p] == pages[..p];
    }
  }

  /** The spans of one page counted in, block after block; image blocks are skipped. */
  method AddPage(info: map<FontKey, FontProfile>, ghost seen: seq<Span>, blocks: Page) returns (info': map<FontKey, FontProfile>)
    requires info == Scan(seen)
    ensures info' == Scan(seen + BlocksSpans(blocks))
  {
    info' := info;
    assert seen + BlocksSpans(blocks[..0]) == seen;
    for b := 0 to |blocks|
      invariant info' == Scan(seen + BlocksSpans(blocks[..b]))
    {
      ghost var cur := seen + BlocksSpans(blocks[..b]);
      if blocks[b].lines.Some? {
        info' := AddLines(info', cur, blocks[b].lines.value);
      } else {
        assert cur + BlockSpans(blocks[b]) == cur;
      }
      BlocksStep(blocks, b);
      ConcatAssoc(seen, BlocksSpans(blocks[..b]), BlockSpans(blocks[b]));
    }
    assert blocks[..|blocks|] == blocks;
  }

  method AddLines(info: map<FontKey, FontProfile>, ghost seen: seq<Span>, lines: seq<seq<Span>>) returns (info': map<FontKey, FontProfile>)
    requires info == Scan(seen)
    ensures info' == Scan(seen + ConcatSpans(lines))
  {
    info' := info;
    assert seen + ConcatSpans(lines[..0]) == seen;
    for l := 0 to |lines|
      invariant info' == Scan(seen + ConcatSpans(lines[..l]))
    {
      ghost var cur := seen + ConcatSpans(lines[..l]);
      info' := AddLine(info', cur, lines[l]);
      ConcatStep(lines, l);
      ConcatAssoc(seen, ConcatSpans(lines[..l]), lines[l]);
    }
    assert lines[..|lines|] == lines;
  }

  method AddLine(info: map<FontKey, FontProfile>, ghost seen: seq<Span>, line: seq<Span>) returns (info': map<FontKey, FontProfile>)
    requires info == Scan(seen)
    ensures info' == Scan(seen + line)
  {
    info' := info;
    assert seen + line[..0] == seen;
    for s := 0 to |line|
      invariant info' == Scan(seen + line[..s])
    {
      SpanStep(seen, line, s);
      info' := AddSpan(info', line[s]);
    }
    assert line[..|line|] == line;
  }

  lemma SpanStep(seen: seq<Span>, line: seq<Span>, s: nat)
    requires s < |line|
    ensures Scan(seen + line[..s + 1]) == AddSpan(Scan(seen + line[..s]), line[s])
  {
    assert seen + line[..s + 1] == (seen + line[..s]) + [line[s]];
    ScanSnoc(seen + line[..s], line[s]);
  }

  lemma BlocksStep(blocks: seq<Block>, b: nat)
    requires b < |blocks|
    ensures BlocksSpans(blocks[..b + 1]) == BlocksSpans(blocks[..b]) + BlockSpans(blocks[b])
  {
    assert blocks[..b + 1][..b] == blocks[..b];
  }

  lemma ConcatStep(lines: seq<seq<Span>>, l: nat)
    requires l < |lines|
    ensures ConcatSpans(lines[..l + 1]) == ConcatSpans(lines[..l]) + lines[l]
  {
    assert lines[..l + 1][..l] == lines[..l];
  }

  lemma ScanSnoc(spans: seq<Span>, s: Span)
    ensures Scan(spans + [s]) == AddSpan(Scan(spans), s)
  {
    assert (spans + [s])[..|spans|] == spans;
  }

  /** The number of spans with key `k`. */
  function CountKey(spans: seq<Span>, k: FontKey): nat
  {
    if |spans| == 0 then 0
    else CountKey(spans[..|spans| - 1], k) + (if KeyOf(spans[|spans| - 1]) == k then 1 else 0)
  }

  /** The texts of the spans with key `k`, concatenated in order. */
  function TextsOf(spans: seq<Span>, k: FontKey): string
  {
    if |spans| == 0 then ""
    else TextsOf(spans[..|spans| - 1], k) + (if KeyOf(spans[|spans| - 1]) == k then spans[|spans| - 1].text else "")
  }

  /** A profile exists exactly for the keys that occur; it carries its key's
      font, size and flags, bits 16 and 2 of the flags as bold and italic,
      the number of its spans, and a sample that is a prefix of those spans'
      texts and is all of them unless it reached 100 characters. */
  predicate ProfileFacts(spans: seq<Span>, k: FontKey)
  {
    var info := Scan(spans);
    (k in info <==> CountKey(spans, k) > 0) &&
    (k in info ==>
      var p := info[k];
      p.font == k.font && p.size == k.size && p.flags == k.flags &&
      p.isBold == FlagBit(k.flags, 4) && p.isItalic == FlagBit(k.flags, 1) &&
      p.count == CountKey(spans, k) &&
      StartsWith(TextsOf(spans, k), p.sampleText) &&
      (p.sampleText != TextsOf(spans, k) ==> |p.sampleText| >= 100))
  }

  lemma {:induction false} ScanFacts(spans: seq<Span>, k: FontKey)
    ensures ProfileFacts(spans, k)
  {
    if |spans| > 0 {
      var init := spans[..|spans| - 1];
      var s := spans[|spans| - 1];
      ScanFacts(init, k);
      if KeyOf(s) == k {
        var t := TextsOf(init, k);
        if k in Scan(init) {
          var p := Scan(init)[k];
          if |p.sampleText| < 100 {
            assert p.sampleText == t;
          } else {
            assert (t + s.text)[..|p.sampleText|] == t[..|p.sampleText|];
          }
        } else {
          assert CountKey(init, k) == 0;
          TextsOfAbsent(init, k);
        }
      }
    }
  }

  lemma {:induction false} TextsOfAbsent(spans: seq<Span>, k: FontKey)
    requires CountKey(spans, k) == 0
    ensures TextsOf(spans, k) == ""
  {
    if |spans| > 0 {
      TextsOfAbsent(spans[..|spans| - 1], k);
    }
  }

  /** Bits 16 and 2 of PyMuPDF's span flags mark bold and italic. */
  lemma FlagBits()
    ensures FlagBit(16, 4) && !FlagBit(16, 1)
    ensures FlagBit(2, 1) && !FlagBit(2, 4)
    ensures FlagBit(18, 4) && FlagBit(18, 1)
    ensures !FlagBit(0, 4) && !FlagBit(0, 1)
  {
    assert Pow2(4) == 16;
    assert Pow2(1) == 2;
  }
}
