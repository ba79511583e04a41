/**
 * Hand-written matchers for the regular expressions the repository applies
 * to model output and to generated HTML.  Each matcher finds the match that
 * Python's backtracking `re.search` finds, stated through the positions that
 * decide it: the leftmost starting point and, for every greedy or lazy
 * repetition, the end it settles on.
 */
module Patterns {
  import opened Wrappers
  import opened Text

  // ---------------------------------------------------------------------------
  // Fenced code blocks: ```(?:tag1|tag2)?\s*([\s\S]*?)\s*```
  // ---------------------------------------------------------------------------

  const Fence: string := "```"

  /** Tag lists used by the three fenced-block searches. */
  const JsonTags: seq<string> := ["json"]
  const HtmlTags: seq<string> := ["html"]
  const JsTags: seq<string> := ["javascript", "js"]

  /** Length of the first alternative of `tags`, in order, that starts at `at`,
      or 0 when none does (the optional group is then skipped). */
  function TagLength(text: string, at: nat, tags: seq<string>): (n: nat)
    requires at <= |text|
    ensures at + n <= |text|
  {
    if |tags| == 0 then 0
    else if Occurs(text, tags[0], at) then |tags[0]|
    else TagLength(text, at, tags[1..])
  }

  /** The alternative taken is the first one that starts at `at`. */
  lemma {:induction false} TagLengthFirst(text: string, at: nat, tags: seq<string>, i: nat)
    requires at <= |text| && i < |tags| && Occurs(text, tags[i], at)
    requires forall k :: 0 <= k < i ==> !Occurs(text, tags[k], at)
    ensures TagLength(text, at, tags) == |tags[i]|
  {
    if i > 0 {
      assert !Occurs(text, tags[0], at);
      assert forall k :: 0 <= k < |tags| - 1 ==> tags[1..][k] == tags[k + 1];
      TagLengthFirst(text, at, tags[1..], i - 1);
    }
  }

  /** When no alternative starts at `at`, the group is skipped. */
  lemma {:induction false} TagLengthNone(text: string, at: nat, tags: seq<string>)
    requires at <= |text| && forall i :: 0 <= i < |tags| ==> !Occurs(text, tags[i], at)
    ensures TagLength(text, at, tags) == 0
  {
    if |tags| > 0 {
      assert !Occurs(text, tags[0], at);
      assert forall k :: 0 <= k < |tags| - 1 ==> tags[1..][k] == tags[k + 1];
      TagLengthNone(text, at, tags[1..]);
    }
  }

  /** No alternative contains a backtick, so a tag never overlaps a fence. */
  predicate BacktickFree(tags: seq<string>)
  {
    forall i, k :: 0 <= i < |tags| && 0 <= k < |tags[i]| ==> tags[i][k] != '`'
  }

  lemma {:induction false} TagHasNoBacktick(text: string, at: nat, tags: seq<string>)
    requires at <= |text| && BacktickFree(tags)
    ensures forall j :: at <= j < at + TagLength(text, at, tags) ==> text[j] != '`'
  {
    if |tags| > 0 {
      if Occurs(text, tags[0], at) {
        forall j | at <= j < at + |tags[0]| ensures text[j] != '`' {
          assert text[j] == tags[0][j - at];
        }
      } else {
        assert forall i :: 0 <= i < |tags| - 1 ==> tags[1..][i] == tags[i + 1];
        TagHasNoBacktick(text, at, tags[1..]);
      }
    }
  }

  lemma NoFenceAt(text: string, j: nat)
    requires j < |text| && text[j] != '`'
    ensures !Occurs(text, Fence, j)
  {
  }

  /** Where a fenced block was found: the opening fence, the start of the text
      after the optional tag, and the closing fence. */
  datatype FenceMatch = FenceMatch(open: nat, bodyStart: nat, close: nat)

  /** `m` is a block opened by the leftmost fence and closed by the first
      fence after its tag. */
  ghost predicate LeftmostBlock(text: string, m: FenceMatch)
  {
    Occurs(text, Fence, m.open) && (forall j :: 0 <= j < m.open ==> !Occurs(text, Fence, j))
    && m.open + 3 <= m.bodyStart <= m.close
    && Occurs(text, Fence, m.close) && (forall j :: m.bodyStart <= j < m.close ==> !Occurs(text, Fence, j))
  }

  /** No fence is followed by another. */
  ghost predicate NoBlock(text: string)
  {
    forall p :: Occurs(text, Fence, p) ==> forall j :: p + 3 <= j ==> !Occurs(text, Fence, j)
  }

  /** The block `re.search` finds: the leftmost opening fence, then the first
      closing fence after the tag.  The lazy group stops at that closing fence,
      and because neither a tag nor whitespace contains a backtick, the search
      succeeds from the leftmost fence or from none at all. */
  function FindFence(text: string, tags: seq<string>): (r: Option<FenceMatch>)
    requires BacktickFree(tags)
    ensures r.Some? ==> LeftmostBlock(text, r.value)
    ensures r.None? <==> NoBlock(text)
  {
    match IndexFrom(text, Fence, 0)
    case None => None
    case Some(p) =>
      var b := p + 3 + TagLength(text, p + 3, tags);
      match IndexFrom(text, Fence, b)
      case None =>
        NoBlockAfter(text, tags, p);
        None
      case Some(q) => Some(FenceMatch(p, b, q))
  }

  /** When no closing fence follows the leftmost opening fence and its tag,
      no fence is followed by another. */
  lemma NoBlockAfter(text: string, tags: seq<string>, p: nat)
    requires BacktickFree(tags) && IndexFrom(text, Fence, 0) == Some(p)
    requires IndexFrom(text, Fence, p + 3 + TagLength(text, p + 3, tags)).None?
    ensures NoBlock(text)
  {
    var b := p + 3 + TagLength(text, p + 3, tags);
    TagHasNoBacktick(text, p + 3, tags);
    forall p', j | Occurs(text, Fence, p') && p' + 3 <= j ensures !Occurs(text, Fence, j) {
      assert p <= p';
      if j < b {
        NoFenceAt(text, j);
      }
    }
  }

  /** The stripped interior of the block `FindFence` finds: `group(1).strip()`.
      The lazy group starts after the whitespace that follows the tag and ends
      before the whitespace that precedes the closing fence, so stripping it
      gives the same text as stripping everything between tag and fence. */
  function FencedBody(text: string, tags: seq<string>): (r: Option<string>)
    requires BacktickFree(tags)
    ensures r.Some? <==> FindFence(text, tags).Some?
    ensures r.Some? ==> Trimmed(r.value) && !Contains(r.value, Fence)
  {
    match FindFence(text, tags)
    case None => None
    case Some(m) =>
      var inner := text[m.bodyStart..m.close];
      SliceAvoids(text, Fence, m.bodyStart, m.close);
      StripAvoids(inner, Fence);
      Some(Strip(inner))
  }

  /** `group(1).strip()` of the first fenced block, or the whole text stripped
      when there is none.  Either way no further block can be found in it. */
  function FencedOrStripped(text: string, tags: seq<string>): (r: string)
    requires BacktickFree(tags)
    ensures Trimmed(r)
    ensures FindFence(r, tags).None?
  {
    match FencedBody(text, tags)
    case Some(body) =>
      NoFenceNoBlock(body, tags);
      body
    case None =>
      StrippedNoBlock(text, tags);
      Strip(text)
  }

  /** Text without a fence holds no block. */
  lemma NoFenceNoBlock(s: string, tags: seq<string>)
    requires BacktickFree(tags) && !Contains(s, Fence)
    ensures FindFence(s, tags).None?
  {
  }

  /** Stripping text that holds no block leaves none to find. */
  lemma StrippedNoBlock(text: string, tags: seq<string>)
    requires BacktickFree(tags) && FindFence(text, tags).None?
    ensures FindFence(Strip(text), tags).None?
  {
    var s := Strip(text);
    var lo := StripStart(text);
    assert s == text[lo..lo + |s|];
    forall p, j | Occurs(s, Fence, p) && p + 3 <= j && Occurs(s, Fence, j) ensures false {
      OccursInSlice(text, Fence, lo, lo + |s|, p);
      OccursInSlice(text, Fence, lo, lo + |s|, j);
    }
  }

  /** Taking the block or stripping is idempotent. */
  lemma FencedOrStrippedIdempotent(text: string, tags: seq<string>)
    requires BacktickFree(tags)
    ensures FencedOrStripped(FencedOrStripped(text, tags), tags) == FencedOrStripped(text, tags)
  {
    var r := FencedOrStripped(text, tags);
    StripTrimmed(r);
  }

  /** Tags as a model writes them after a fence: non-empty words with no
      whitespace or backtick, none a prefix of another. */
  predicate PlainTags(tags: seq<string>)
  {
    BacktickFree(tags)
    && (forall i :: 0 <= i < |tags| ==> |tags[i]| > 0 && NoSpace(tags[i]))
    && (forall i, k :: 0 <= i < |tags| && 0 <= k < |tags| && i != k ==> !StartsWith(tags[i], tags[k]))
  }

  lemma PlainTagLists()
    ensures PlainTags(JsonTags) && PlainTags(HtmlTags) && PlainTags(JsTags)
  {
    PlainSingleTag("json");
    PlainSingleTag("html");
    PlainJsTags();
  }

  lemma PlainSingleTag(t: string)
    requires |t| > 0 && NoSpace(t) && forall i :: 0 <= i < |t| ==> t[i] != '`'
    ensures PlainTags([t])
  {
    assert [t][0] == t;
  }

  lemma PlainJsTags()
    ensures PlainTags(JsTags)
  {
    assert "javascript"[..2] == "ja";
  }

  /** A block written as  ```tag, newline, body, newline, ```  (with the tag
      one of the alternatives or absent) gives back the stripped body, provided
      the body holds no fence of its own. */
  lemma FencedBodyOfBlock(t: string, x: string, tags: seq<string>)
    requires PlainTags(tags) && (t == "" || t in tags) && !Contains(x, Fence)
    ensures FencedBody(Fence + t + "\n" + x + "\n" + Fence, tags) == Some(Strip(x))
  {
    var text := Fence + t + "\n" + x + "\n" + Fence;
    var b, n := 3 + |t|, 4 + |t| + |x|;
    BlockLayout(text, t, x, b, n);
    FencedBodyOfLayout(text, t, x, tags, b, n);
  }

  lemma FencedBodyOfLayout(text: string, t: string, x: string, tags: seq<string>, b: nat, n: nat)
    requires PlainTags(tags) && (t == "" || t in tags) && !Contains(x, Fence)
    requires b == 3 + |t| && n == b + 1 + |x| && |text| == n + 4 && Occurs(text, Fence, 0)
    requires text[3..b] == t && text[b] == '\n' && text[b + 1..n] == x && text[n] == '\n'
    requires text[n + 1..] == Fence && text[b..n + 1] == "\n" + x + "\n"
    ensures FencedBody(text, tags) == Some(Strip(x))
  {
    BlockFences(text, t, x, tags, b, n);
    FencedBodyOfFences(text, x, tags, b, n + 1);
  }

  lemma FencedBodyOfFences(text: string, x: string, tags: seq<string>, b: nat, q: nat)
    requires BacktickFree(tags) && 3 <= b <= q <= |text| && text[b..q] == "\n" + x + "\n"
    requires IndexFrom(text, Fence, 0) == Some(0) && TagLength(text, 3, tags) == b - 3
    requires IndexFrom(text, Fence, b) == Some(q)
    ensures FencedBody(text, tags) == Some(Strip(x))
  {
    StripOfPadded(text, x, b, q);
    FencedBodyAt(text, tags, b, q, Strip(x));
  }

  /** The fences of such a block: the opening one at the start, the tag as
      written, and the closing one right after the body. */
  lemma BlockFences(text: string, t: string, x: string, tags: seq<string>, b: nat, n: nat)
    requires PlainTags(tags) && (t == "" || t in tags) && !Contains(x, Fence)
    requires b == 3 + |t| && n == b + 1 + |x| && |text| == n + 4 && Occurs(text, Fence, 0)
    requires text[3..b] == t && text[b] == '\n' && text[b + 1..n] == x && text[n] == '\n'
    requires text[n + 1..] == Fence
    ensures IndexFrom(text, Fence, 0) == Some(0) && TagLength(text, 3, tags) == b - 3
    ensures IndexFrom(text, Fence, b) == Some(n + 1)
  {
    IndexFromFirst(text, Fence, 0, 0);
    TagOfBlock(text, t, tags);
    ClosingFenceOfBlock(text, x, b, n);
  }

  lemma StripOfPadded(text: string, x: string, b: nat, q: nat)
    requires b <= q <= |text| && text[b..q] == "\n" + x + "\n"
    ensures Strip(text[b..q]) == Strip(x)
  {
    StripPadded("\n", x, "\n");
  }

  lemma BlockLayout(text: string, t: string, x: string, b: nat, n: nat)
    requires text == Fence + t + "\n" + x + "\n" + Fence && b == 3 + |t| && n == 4 + |t| + |x|
    ensures |text| == n + 4 && Occurs(text, Fence, 0) && text[3..b] == t && text[b] == '\n'
      && text[b + 1..n] == x && text[n] == '\n' && text[n + 1..] == Fence
      && text[b..n + 1] == "\n" + x + "\n"
  {
  }

  /** A text that opens with a fence, whose tag ends at `b` and whose next
      fence is at `q`, has the block between them as its body. */
  lemma FencedBodyAt(text: string, tags: seq<string>, b: nat, q: nat, body: string)
    requires BacktickFree(tags) && 3 <= b <= q <= |text|
    requires IndexFrom(text, Fence, 0) == Some(0) && TagLength(text, 3, tags) == b - 3
    requires IndexFrom(text, Fence, b) == Some(q) && Strip(text[b..q]) == body
    ensures FencedBody(text, tags) == Some(body)
  {
    FindFenceAt(text, tags, b, q);
  }

  lemma FindFenceAt(text: string, tags: seq<string>, b: nat, q: nat)
    requires BacktickFree(tags) && 3 <= b <= |text|
    requires IndexFrom(text, Fence, 0) == Some(0) && TagLength(text, 3, tags) == b - 3
    requires IndexFrom(text, Fence, b) == Some(q)
    ensures FindFence(text, tags) == Some(FenceMatch(0, b, q))
  {
    var p := IndexFrom(text, Fence, 0).value;
    assert p + 3 + TagLength(text, p + 3, tags) == b;
  }

  /** In such a block the first fence after the tag is the closing one. */
  lemma ClosingFenceOfBlock(text: string, x: string, b: nat, n: nat)
    requires b < n && n + 4 == |text| && !Contains(x, Fence)
    requires text[b] == '\n' && text[b + 1..n] == x && text[n] == '\n' && text[n + 1..] == Fence
    ensures IndexFrom(text, Fence, b) == Some(n + 1)
  {
    forall j | b <= j < n + 1 ensures !Occurs(text, Fence, j) {
      if j == b {
        NoOccurrenceAcross(text, Fence, j, b);
      } else if j + 3 <= n {
        SliceOfSlice(text, b + 1, n, j - b - 1, j - b + 2);
        assert !Occurs(x, Fence, j - b - 1);
      } else {
        NoOccurrenceAcross(text, Fence, j, n);
      }
    }
    assert text[n + 1..n + 4] == Fence;
    IndexFromFirst(text, Fence, b, n + 1);
  }

  /** In such a block the tag alternative taken is the one written. */
  lemma TagOfBlock(text: string, t: string, tags: seq<string>)
    requires PlainTags(tags) && (t == "" || t in tags)
    requires |text| > 3 + |t| && text[3..3 + |t|] == t && text[3 + |t|] == '\n'
    ensures TagLength(text, 3, tags) == |t|
  {
    forall k | 0 <= k < |tags| && tags[k] != t ensures !Occurs(text, tags[k], 3) {
      OtherTagAbsent(text, t, tags, k);
    }
    if t != "" {
      var i :| 0 <= i < |tags| && tags[i] == t;
      assert Occurs(text, tags[i], 3);
      forall k | 0 <= k < i ensures tags[k] != t {
        assert !StartsWith(tags[i], tags[k]);
      }
      TagLengthFirst(text, 3, tags, i);
    } else {
      TagLengthNone(text, 3, tags);
    }
  }

  lemma OtherTagAbsent(text: string, t: string, tags: seq<string>, k: nat)
    requires PlainTags(tags) && (t == "" || t in tags) && k < |tags| && tags[k] != t
    requires |text| > 3 + |t| && text[3..3 + |t|] == t && text[3 + |t|] == '\n'
    ensures !Occurs(text, tags[k], 3)
  {
    var u := tags[k];
    if |u| > |t| {
      assert !IsSpace(u[|t|]);
      NoOccurrenceAcross(text, u, 3, 3 + |t|);
    } else if 3 + |u| <= |text| {
      var i :| 0 <= i < |tags| && tags[i] == t;
      assert !StartsWith(tags[i], tags[k]);
      assert text[3..3 + |u|] == t[..|u|];
    }
  }

  // ---------------------------------------------------------------------------
  // Document bodies: <body[^>]*>(.*?)</body>  (DOTALL)
  // ---------------------------------------------------------------------------

  const BodyOpen: string := "<body"
  const BodyClose: string := "</body>"

  /** The positions of a body match: the leftmost `<body` at `p`, the first
      `>` after it at `g`, and the first `</body>` after that at `q`. */
  ghost predicate LeftmostBody(html: string, p: nat, g: nat, q: nat)
  {
    Occurs(html, BodyOpen, p) && (forall j :: 0 <= j < p ==> !Occurs(html, BodyOpen, j))
    && p + 5 <= g < q && Occurs(html, BodyClose, q)
    && html[g] == '>' && (forall j :: p + 5 <= j < g ==> html[j] != '>')
    && (forall j :: g + 1 <= j < q ==> !Occurs(html, BodyClose, j))
  }

  /** The body search finds nothing. */
  ghost predicate NoBody(html: string)
  {
    forall p, g, q :: !LeftmostBody(html, p, g, q)
  }

  /** A body match: the `<body` at `open`, its `>` at `tagEnd`, the `</body>` at `close`. */
  datatype BodyMatch = BodyMatch(open: nat, tagEnd: nat, close: nat)

  /** Where the body search matches, starting from the first `<body`; it
      finds nothing exactly when that first `<body` has no match: there is no
      `<body`, no `>` after it, or no `</body>` after that `>`. */
  function FindBodyMatch(html: string): (r: Option<BodyMatch>)
    ensures r.Some? ==> LeftmostBody(html, r.value.open, r.value.tagEnd, r.value.close)
    ensures r.None? <==> NoBody(html)
  {
    match IndexFrom(html, BodyOpen, 0)
    case None => None
    case Some(p) =>
      match IndexFrom(html, ">", p + 5)
      case None =>
        NoTagEnd(html, p);
        None
      case Some(g) =>
        OccursChar(html, g, '>');
        assert forall j :: p + 5 <= j < g ==> html[j] != '>' by {
          forall j | p + 5 <= j < g ensures html[j] != '>' {
            OccursChar(html, j, '>');
          }
        }
        match IndexFrom(html, BodyClose, g + 1)
        case None =>
          NoBodyClose(html, p, g);
          None
        case Some(q) => Some(BodyMatch(p, g, q))
  }

  /** A one-character pattern occurs exactly where that character is. */
  lemma OccursChar(s: string, i: nat, c: char)
    requires i < |s|
    ensures Occurs(s, [c], i) <==> s[i] == c
  {
    assert s[i..i + 1] == [s[i]];
  }

  /** Every match starts at the leftmost `<body`. */
  lemma OpenOfMatch(html: string, p: nat, p': nat, g': nat, q': nat)
    requires Occurs(html, BodyOpen, p) && (forall j :: 0 <= j < p ==> !Occurs(html, BodyOpen, j))
    requires LeftmostBody(html, p', g', q')
    ensures p' == p
  {
  }

  /** No `>` follows the leftmost `<body`: nothing matches. */
  lemma NoTagEnd(html: string, p: nat)
    requires IndexFrom(html, BodyOpen, 0) == Some(p) && p + 5 <= |html|
    requires IndexFrom(html, ">", p + 5).None?
    ensures NoBody(html)
  {
    forall p', g', q' ensures !LeftmostBody(html, p', g', q') {
      if LeftmostBody(html, p', g', q') {
        OpenOfMatch(html, p, p', g', q');
        OccursChar(html, g', '>');
        assert false;
      }
    }
  }

  /** No `</body>` follows the first `>`: nothing matches. */
  lemma NoBodyClose(html: string, p: nat, g: nat)
    requires IndexFrom(html, BodyOpen, 0) == Some(p) && p + 5 <= g < |html|
    requires html[g] == '>' && (forall j :: p + 5 <= j < g ==> html[j] != '>')
    requires IndexFrom(html, BodyClose, g + 1).None?
    ensures NoBody(html)
  {
    forall p', g', q' ensures !LeftmostBody(html, p', g', q') {
      if LeftmostBody(html, p', g', q') {
        OpenOfMatch(html, p, p', g', q');
        assert false;
      }
    }
  }

  /** There is at most one match. */
  lemma LeftmostBodyUnique(html: string, p: nat, g: nat, q: nat, p': nat, g': nat, q': nat)
    requires LeftmostBody(html, p, g, q) && LeftmostBody(html, p', g', q')
    ensures p == p' && g == g' && q == q'
  {
    OpenOfMatch(html, p, p', g', q');
  }

  /** Group 1 of the body search: the text between the `>` and the `</body>`
      of the match. */
  function FindBody(html: string): (r: Option<string>)
  {
    match FindBodyMatch(html)
    case None => None
    case Some(m) => Some(html[m.tagEnd + 1..m.close])
  }

  /** Whatever the match, it is the one the search reports. */
  lemma FindBodyAt(html: string, p: nat, g: nat, q: nat)
    requires LeftmostBody(html, p, g, q)
    ensures FindBody(html) == Some(html[g + 1..q])
  {
    var r := FindBodyMatch(html);
    assert r.Some?;
    LeftmostBodyUnique(html, r.value.open, r.value.tagEnd, r.value.close, p, g, q);
  }

  /** A document written as  prefix, `<body`, attributes, `>`, content, `</body>`, rest
      gives back its content when the prefix holds no `<body`, the attributes no `>`
      and the content no `</body>`. */
  lemma FindBodyOfDocument(pre: string, attrs: string, x: string, post: string)
    requires !Contains(pre + "<bod", BodyOpen) && !Contains(attrs, ">") && !Contains(x, BodyClose)
    ensures FindBody(pre + BodyOpen + attrs + ">" + x + BodyClose + post) == Some(x)
  {
    DocumentLayout(pre, attrs, x, post);
    FindBodyOfLayout(pre + BodyOpen + attrs + ">" + x + BodyClose + post, pre + "<bod", attrs, x,
      |pre|, |pre| + 5 + |attrs|, |pre| + 6 + |attrs| + |x|);
  }

  lemma FindBodyOfLayout(html: string, lead: string, attrs: string, x: string, p: nat, g: nat, q: nat)
    requires p + 5 <= g < q && q + 7 <= |html|
    requires html[0..p + 4] == lead && Occurs(html, BodyOpen, p) && !Contains(lead, BodyOpen)
    requires html[p + 5..g] == attrs && Occurs(html, ">", g) && !Contains(attrs, ">")
    requires html[g + 1..q] == x && Occurs(html, BodyClose, q) && !Contains(x, BodyClose)
    ensures FindBody(html) == Some(x)
  {
    NothingBefore(html, lead, BodyOpen, 0, p);
    NothingBefore(html, attrs, ">", p + 5, g);
    OccursChar(html, g, '>');
    forall j | p + 5 <= j < g ensures html[j] != '>' {
      OccursChar(html, j, '>');
    }
    forall j | g + 1 <= j < q ensures !Occurs(html, BodyClose, j) {
      if j + 7 <= q {
        NothingBeforeAt(html, x, BodyClose, g + 1, q, j);
      } else {
        NoOccurrenceAcross(html, BodyClose, j, q);
      }
    }
    assert LeftmostBody(html, p, g, q);
    FindBodyAt(html, p, g, q);
  }

  /** A slice free of `t` holds no occurrence of `t` that fits inside it. */
  lemma NothingBeforeAt(s: string, piece: string, t: string, lo: nat, hi: nat, j: nat)
    requires lo <= hi <= |s| && s[lo..hi] == piece && !Contains(piece, t)
    requires lo <= j && j + |t| <= hi
    ensures !Occurs(s, t, j)
  {
    SliceOfSlice(s, lo, hi, j - lo, j - lo + |t|);
    assert !Occurs(piece, t, j - lo);
  }

  lemma NothingBefore(s: string, piece: string, t: string, lo: nat, k: nat)
    requires lo <= k && k + |t| - 1 <= |s| && |t| > 0 && s[lo..k + |t| - 1] == piece && !Contains(piece, t)
    ensures forall j :: lo <= j < k ==> !Occurs(s, t, j)
  {
    forall j | lo <= j < k ensures !Occurs(s, t, j) {
      NothingBeforeAt(s, piece, t, lo, k + |t| - 1, j);
    }
  }

  lemma DocumentLayout(pre: string, attrs: string, x: string, post: string)
    ensures var html := pre + BodyOpen + attrs + ">" + x + BodyClose + post;
      var p, g, q := |pre|, |pre| + 5 + |attrs|, |pre| + 6 + |attrs| + |x|;
      q + 7 <= |html| && html[0..p + 4] == pre + "<bod" && Occurs(html, BodyOpen, p)
      && html[p + 5..g] == attrs && Occurs(html, ">", g)
      && html[g + 1..q] == x && Occurs(html, BodyClose, q)
  {
    var html := pre + BodyOpen + attrs + ">" + x + BodyClose + post;
    var p, g, q := |pre|, |pre| + 5 + |attrs|, |pre| + 6 + |attrs| + |x|;
    assert html[..p + 4] == pre + "<bod";
    assert html[p..p + 5] == BodyOpen;
    assert html[p + 5..g] == attrs;
    assert html[g..g + 1] == ">";
    assert html[g + 1..q] == x;
    assert html[q..q + 7] == BodyClose;
  }

  // ---------------------------------------------------------------------------
  // Slide arrays: \[\s*{.*}\s*\]  (DOTALL), whole match
  // ---------------------------------------------------------------------------

  /** The position of the `{` when a `[` at `p` is followed by optional whitespace and `{`. */
  function BraceAfter(text: string, p: nat): (r: Option<nat>)
    ensures r.Some? ==>
      p < r.value < |text| && text[p] == '[' && text[r.value] == '{' && AllSpace(text[p + 1..r.value])
  {
    if p < |text| && text[p] == '[' then
      var w := RunEnd(text, p + 1, IsSpace);
      if w < |text| && text[w] == '{' then Some(w) else None
    else None
  }

  /** A `}` at `e` followed by optional whitespace and `]`. */
  predicate IsCloser(text: string, e: nat)
  {
    e < |text| && text[e] == '}' && RunEnd(text, e + 1, IsSpace) < |text| && text[RunEnd(text, e + 1, IsSpace)] == ']'
  }

  /** The leftmost `[` that can open a match, with its `{`. */
  function FirstOpener(text: string, from: nat): (r: Option<(nat, nat)>)
    requires from <= |text|
    ensures r.Some? ==> from <= r.value.0 && BraceAfter(text, r.value.0) == Some(r.value.1)
    ensures r.Some? ==> forall j :: from <= j < r.value.0 ==> BraceAfter(text, j).None?
    ensures r.None? ==> forall j :: from <= j ==> BraceAfter(text, j).None?
    decreases |text| - from
  {
    if from == |text| then None
    else match BraceAfter(text, from)
      case Some(q) => Some((from, q))
      case None => FirstOpener(text, from + 1)
  }

  /** The greedy `.*`: the last closer in `[lo, hi)`. */
  function LastCloser(text: string, lo: nat, hi: nat): (r: Option<nat>)
    requires lo <= hi <= |text|
    ensures r.Some? ==> lo <= r.value < hi && IsCloser(text, r.value)
    ensures r.Some? ==> forall k :: r.value < k < hi ==> !IsCloser(text, k)
    ensures r.None? ==> forall k :: lo <= k < hi ==> !IsCloser(text, k)
    decreases hi - lo
  {
    if lo == hi then None
    else if IsCloser(text, hi - 1) then Some(hi - 1)
    else LastCloser(text, lo, hi - 1)
  }

  /** A slide-array match: the `[` at `open`, its `{` at `brace`, and the `}`
      of the closer at `closer`. */
  datatype ArrayMatch = ArrayMatch(open: nat, brace: nat, closer: nat)

  /** Just past the `]` of the closer at `e`. */
  function CloserEnd(text: string, e: nat): (n: nat)
    requires IsCloser(text, e)
    ensures e + 2 <= n <= |text| && text[n - 1] == ']'
  {
    RunEnd(text, e + 1, IsSpace) + 1
  }

  /** The match starts at the leftmost opener and ends at the last closer
      after its `{`. */
  ghost predicate LeftmostArray(text: string, m: ArrayMatch)
  {
    BraceAfter(text, m.open) == Some(m.brace) && (forall j :: 0 <= j < m.open ==> BraceAfter(text, j).None?)
    && m.brace < m.closer && IsCloser(text, m.closer)
    && forall k :: m.closer < k < |text| ==> !IsCloser(text, k)
  }

  /** No opener is followed by a closer. */
  ghost predicate NoArray(text: string)
  {
    forall p, q :: BraceAfter(text, p) == Some(q) ==> forall e :: q < e ==> !IsCloser(text, e)
  }

  /** Where the slide-array search matches.  A later `[` cannot succeed
      where the leftmost one fails, since its `{` lies further right. */
  function FindArrayMatch(text: string): (r: Option<ArrayMatch>)
    ensures r.Some? ==> LeftmostArray(text, r.value)
    ensures r.None? <==> NoArray(text)
  {
    match FirstOpener(text, 0)
    case None => None
    case Some((p, q)) =>
      match LastCloser(text, q + 1, |text|)
      case None =>
        assert NoArray(text) by {
          forall p', q', e | BraceAfter(text, p') == Some(q') && q' < e ensures !IsCloser(text, e) {
            LaterOpenerFurtherRight(text, p, q, p', q');
          }
        }
        None
      case Some(e) => Some(ArrayMatch(p, q, e))
  }

  /** `group(0)` of the slide-array search: from the leftmost `[`+whitespace+`{`
      to the last `}`+whitespace+`]` after it. */
  function FindSlideArray(text: string): (r: Option<string>)
    ensures r.Some? <==> FindArrayMatch(text).Some?
    ensures r.Some? ==> |r.value| >= 2 && r.value[0] == '[' && r.value[|r.value| - 1] == ']'
    ensures r.Some? ==> Occurs(text, r.value, FindArrayMatch(text).value.open)
  {
    match FindArrayMatch(text)
    case None => None
    case Some(m) =>
      ArraySpan(text, m.open, m.closer);
      Some(text[m.open..CloserEnd(text, m.closer)])
  }

  /** From a `[` to just past a closer after it: a bracketed occurrence. */
  lemma ArraySpan(text: string, p: nat, e: nat)
    requires p < e && IsCloser(text, e) && text[p] == '['
    ensures var span := text[p..CloserEnd(text, e)];
      |span| >= 2 && span[0] == '[' && span[|span| - 1] == ']' && Occurs(text, span, p)
  {
  }

  /** Openers after the leftmost one have their `{` further right. */
  lemma LaterOpenerFurtherRight(text: string, p: nat, q: nat, p': nat, q': nat)
    requires FirstOpener(text, 0) == Some((p, q)) && BraceAfter(text, p') == Some(q')
    ensures q <= q'
  {
  }

  /** A bare array of objects is extracted whole. */
  lemma SlideArrayOfBareArray(m: string)
    ensures FindSlideArray("[{" + m + "}]") == Some("[{" + m + "}]")
  {
    var text := "[{" + m + "}]";
    BareArrayLayout(text, m, |text|);
    SlideArrayOfLayout(text, |text|);
  }

  lemma BareArrayLayout(text: string, m: string, n: nat)
    requires text == "[{" + m + "}]" && n == |text|
    ensures n >= 4 && text[0] == '[' && text[1] == '{' && text[n - 2] == '}' && text[n - 1] == ']'
  {
  }

  /** A text that is `[{`, anything, `}]` is one whole match. */
  lemma SlideArrayOfLayout(text: string, n: nat)
    requires n == |text| >= 4 && text[0] == '[' && text[1] == '{' && text[n - 2] == '}' && text[n - 1] == ']'
    ensures FindSlideArray(text) == Some(text)
  {
    assert RunEnd(text, 1, IsSpace) == 1;
    assert BraceAfter(text, 0) == Some(1);
    assert RunEnd(text, n - 1, IsSpace) == n - 1;
    assert IsCloser(text, n - 2);
    assert !IsCloser(text, n - 1);
    assert LastCloser(text, 2, n) == Some(n - 2);
    assert FirstOpener(text, 0) == Some((0, 1));
    var q := FirstOpener(text, 0).value.1;
    assert LastCloser(text, q + 1, |text|) == Some(n - 2);
    assert FindArrayMatch(text) == Some(ArrayMatch(0, 1, n - 2));
    var e := n - 2;
    assert RunEnd(text, e + 1, IsSpace) == n - 1;
    assert CloserEnd(text, e) == n;
    assert text[0..n] == text;
  }

  /** An array of objects, `[{`…`}]`, set in prose with no `[` before it
      and no `}` after it is extracted on its own. */
  lemma SlideArrayInProse(pre: string, arr: string, post: string)
    requires |arr| >= 4 && arr[0] == '[' && arr[1] == '{' && arr[|arr| - 2] == '}' && arr[|arr| - 1] == ']'
    requires NoChar(pre, '[') && NoChar(post, '}')
    ensures FindSlideArray(pre + arr + post) == Some(arr)
  {
    var text := pre + arr + post;
    var a, n := |pre|, |pre| + |arr|;
    assert forall j :: 0 <= j < a ==> text[j] == pre[j];
    assert forall k :: n <= k < |text| ==> text[k] == post[k - n];
    assert text[a..n] == arr;
    ArrayAt(text, a, n);
  }

  /** A text holding `[{`…`}]` at `[a, n)`, with no `[` before and no `}`
      after, matches exactly there. */
  lemma ArrayAt(text: string, a: nat, n: nat)
    requires a + 4 <= n <= |text|
    requires text[a] == '[' && text[a + 1] == '{' && text[n - 2] == '}' && text[n - 1] == ']'
    requires forall j :: 0 <= j < a ==> text[j] != '['
    requires forall k :: n <= k < |text| ==> text[k] != '}'
    ensures FindSlideArray(text) == Some(text[a..n])
  {
    OpenerAt(text, a);
    CloserAt(text, a + 2, n - 2);
    assert FindArrayMatch(text) == Some(ArrayMatch(a, a + 1, n - 2));
  }

  /** A `[{` with no `[` before it is the leftmost opener. */
  lemma OpenerAt(text: string, a: nat)
    requires a + 1 < |text| && text[a] == '[' && text[a + 1] == '{'
    requires forall j :: 0 <= j < a ==> text[j] != '['
    ensures FirstOpener(text, 0) == Some((a, a + 1))
  {
    assert RunEnd(text, a + 1, IsSpace) == a + 1;
    assert BraceAfter(text, a) == Some(a + 1);
  }

  /** A `}]` with no `}` after it is the last closer, and the match ends
      just past its `]`. */
  lemma CloserAt(text: string, lo: nat, e: nat)
    requires lo <= e && e + 2 <= |text| && text[e] == '}' && text[e + 1] == ']'
    requires forall k :: e + 2 <= k < |text| ==> text[k] != '}'
    ensures LastCloser(text, lo, |text|) == Some(e)
    ensures IsCloser(text, e) && CloserEnd(text, e) == e + 2
  {
    assert RunEnd(text, e + 1, IsSpace) == e + 1;
    assert IsCloser(text, e);
    assert forall k :: e < k < |text| ==> !IsCloser(text, k);
  }

  // ---------------------------------------------------------------------------
  // Theme keys: Kw(?:\s+suffix)?[:\s]+([\w\s-]+)  (IGNORECASE)
  // ---------------------------------------------------------------------------

  /** `\w`: ASCII letters, digits and `_`, and the Vietnamese letters. */
  predicate IsWordChar(c: char)
  {
    ('a' <= c <= 'z') || ('A' <= c <= 'Z') || ('0' <= c <= '9') || c == '_' || IsCased(c)
  }

  /** `[\w\s-]` */
  predicate IsValueChar(c: char)
  {
    IsWordChar(c) || IsSpace(c) || c == '-'
  }

  /** `[:\s]` */
  predicate IsSeparatorChar(c: char)
  {
    c == ':' || IsSpace(c)
  }

  function AsciiFold(c: char): char
  {
    if 'A' <= c <= 'Z' then (c as int + 32) as char else c
  }

  /** `word` matches at `at`, ignoring ASCII case. */
  predicate MatchesAt(text: string, at: nat, word: string)
  {
    at + |word| <= |text| && forall i :: 0 <= i < |word| ==> AsciiFold(text[at + i]) == AsciiFold(word[i])
  }

  /** The last whitespace position in `[lo, hi)`. */
  function LastSpace(text: string, lo: nat, hi: nat): (r: Option<nat>)
    requires lo <= hi <= |text|
    ensures r.Some? ==> lo <= r.value < hi && IsSpace(text[r.value])
    ensures r.Some? ==> forall k :: r.value < k < hi ==> !IsSpace(text[k])
    ensures r.None? ==> forall k :: lo <= k < hi ==> !IsSpace(text[k])
    decreases hi - lo
  {
    if lo == hi then None
    else if IsSpace(text[hi - 1]) then Some(hi - 1)
    else LastSpace(text, lo, hi - 1)
  }

  /** `[:\s]+([\w\s-]+)` from `a`: group 1, if the tail matches there.  The
      separator run is taken whole when a word character or `-` follows it;
      otherwise it gives back characters until the group can start on one of
      its own whitespace characters, and the group is then that one character. */
  function ValueAt(text: string, a: nat): (r: Option<string>)
    requires a <= |text|
    ensures r.Some? ==> ValueText(r.value)
  {
    var r := RunEnd(text, a, IsSeparatorChar);
    if r == a then None
    else if r < |text| && (IsWordChar(text[r]) || text[r] == '-') then
      var e := RunEnd(text, r, IsValueChar);
      assert forall i :: 0 <= i < e - r ==> text[r..e][i] == text[r + i];
      Some(text[r..e])
    else match LastSpace(text, a + 1, r)
      case None => None
      case Some(s) => Some(text[s..s + 1])
  }

  /** Text group 1 can hold: non-empty, and every character in `[\w\s-]`. */
  predicate ValueText(s: string)
  {
    |s| > 0 && forall i :: 0 <= i < |s| ==> IsValueChar(s[i])
  }

  /** The whole pattern tried at `p`: the keyword, then the optional
      whitespace-and-suffix group (taken when the rest then matches), then the tail. */
  function KeyAt(text: string, p: nat, kw: string, suffix: string): (r: Option<string>)
    requires p <= |text|
    ensures r.Some? ==> MatchesAt(text, p, kw) && ValueText(r.value)
  {
    if !MatchesAt(text, p, kw) then None
    else
      var k := p + |kw|;
      var w := RunEnd(text, k, IsSpace);
      var viaSuffix := if w > k && MatchesAt(text, w, suffix) then ValueAt(text, w + |suffix|) else None;
      if viaSuffix.Some? then viaSuffix else ValueAt(text, k)
  }

  /** The first `true` at or after `from`. */
  function FirstTrue(hits: seq<bool>, from: nat): (r: Option<nat>)
    requires from <= |hits|
    ensures r.Some? ==> from <= r.value < |hits| && hits[r.value]
    ensures r.Some? ==> forall j :: from <= j < r.value ==> !hits[j]
    ensures r.None? ==> forall j :: from <= j < |hits| ==> !hits[j]
    decreases |hits| - from
  {
    if from == |hits| then None
    else if hits[from] then Some(from)
    else FirstTrue(hits, from + 1)
  }

  /** For every start position, whether the whole pattern matches there. */
  function KeyHits(text: string, kw: string, suffix: string): (h: seq<bool>)
    ensures |h| == |text| + 1
    ensures forall p :: 0 <= p <= |text| ==> h[p] == KeyAt(text, p, kw, suffix).Some?
  {
    seq(|text| + 1, p requires 0 <= p <= |text| => KeyAt(text, p, kw, suffix).Some?)
  }

  /** Where `re.search` for the key pattern finds its match: the leftmost start
      at which the pattern matches, and no match before it. */
  function FirstKey(text: string, kw: string, suffix: string): (r: Option<nat>)
    ensures r.Some? ==> r.value <= |text| && KeyAt(text, r.value, kw, suffix).Some?
    ensures r.Some? ==> forall j :: 0 <= j < r.value ==> KeyAt(text, j, kw, suffix).None?
    ensures r.None? ==> forall j :: 0 <= j <= |text| ==> KeyAt(text, j, kw, suffix).None?
  {
    FirstTrue(KeyHits(text, kw, suffix), 0)
  }

  /** Group 1 of that match. */
  function FindKey(text: string, kw: string, suffix: string): (r: Option<string>)
    ensures r.Some? ==> ValueText(r.value)
    ensures r.Some? <==> FirstKey(text, kw, suffix).Some?
  {
    match FirstKey(text, kw, suffix)
    case None => None
    case Some(p) => KeyAt(text, p, kw, suffix)
  }

  /** `match.group(1).strip() if match else default`. */
  function KeyValue(text: string, kw: string, suffix: string, default: string): (v: string)
    ensures FindKey(text, kw, suffix).None? ==> v == default
    ensures FindKey(text, kw, suffix).Some? ==> Trimmed(v) && forall i :: 0 <= i < |v| ==> IsValueChar(v[i])
  {
    match FindKey(text, kw, suffix)
    case None => default
    case Some(g) =>
      var v := Strip(g);
      assert forall i :: 0 <= i < |v| ==> v[i] == g[StripStart(g) + i];
      v
  }

  /** A response that begins `Keyword: value` yields that value. */
  lemma KeyValueOfLine(kw: string, v: string, suffix: string, default: string)
    requires ValueText(v) && Trimmed(v) && |kw| > 0
    ensures KeyValue(kw + ": " + v, kw, suffix, default) == v
  {
    var text := kw + ": " + v;
    KeyLineLayout(text, kw, v, |kw|);
    KeyValueOfLayout(text, kw, v, suffix, default, |kw|);
  }

  lemma KeyLineLayout(text: string, kw: string, v: string, k: nat)
    requires text == kw + ": " + v && k == |kw|
    ensures |text| == k + 2 + |v| && text[k] == ':' && text[k + 1] == ' '
    ensures forall i :: 0 <= i < k ==> text[i] == kw[i]
    ensures forall i :: 0 <= i < |v| ==> text[k + 2 + i] == v[i]
    ensures text[k + 2..|text|] == v
  {
  }

  lemma KeyValueOfLayout(text: string, kw: string, v: string, suffix: string, default: string, k: nat)
    requires ValueText(v) && Trimmed(v) && k == |kw| > 0
    requires |text| == k + 2 + |v| && text[k] == ':' && text[k + 1] == ' '
    requires forall i :: 0 <= i < k ==> text[i] == kw[i]
    requires forall i :: 0 <= i < |v| ==> text[k + 2 + i] == v[i]
    requires text[k + 2..|text|] == v
    ensures KeyValue(text, kw, suffix, default) == v
  {
    KeyAtLine(text, kw, v, suffix, k);
    assert KeyHits(text, kw, suffix)[0];
    assert FirstKey(text, kw, suffix) == Some(0);
    StripTrimmed(v);
  }

  lemma KeyAtLine(text: string, kw: string, v: string, suffix: string, k: nat)
    requires ValueText(v) && Trimmed(v) && k == |kw| > 0
    requires |text| == k + 2 + |v| && text[k] == ':' && text[k + 1] == ' '
    requires forall i :: 0 <= i < k ==> text[i] == kw[i]
    requires forall i :: 0 <= i < |v| ==> text[k + 2 + i] == v[i]
    requires text[k + 2..|text|] == v
    ensures KeyAt(text, 0, kw, suffix) == Some(v)
  {
    assert MatchesAt(text, 0, kw);
    RunEndUnique(text, k, k, IsSpace);
    assert text[k + 2] == v[0] && !IsSpace(v[0]);
    RunEndUnique(text, k, k + 2, IsSeparatorChar);
    forall i | k + 2 <= i < |text| ensures IsValueChar(text[i]) {
      assert text[k + 2 + (i - k - 2)] == v[i - k - 2];
    }
    RunEndUnique(text, k + 2, |text|, IsValueChar);
  }
}
