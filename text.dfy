/**
 * Python string operations used throughout the repository, with Python's
 * semantics: `str.strip`, `str.split(sep)`, `sep.join`, `str.count`,
 * `str.replace`, `str.split()`, `in`, `startswith`, `endswith`, `lower`,
 * `isupper`, and decimal formatting of natural numbers.
 */
module Text {
  import opened Wrappers

  // ---------------------------------------------------------------------------
  // Character classes
  // ---------------------------------------------------------------------------

  /** Exactly the characters for which Python's `str.isspace()` holds; `strip()`,
      `split()` and the regular-expression class `\s` use this set. */
  predicate IsSpace(c: char)
  {
    c == ' ' || ('\t' <= c <= '\r') || ('\U{1C}' <= c <= '\U{1F}')
    || c == '\U{85}' || c == '\U{A0}' || c == '\U{1680}'
    || ('\U{2000}' <= c <= '\U{200A}') || c == '\U{2028}' || c == '\U{2029}'
    || c == '\U{202F}' || c == '\U{205F}' || c == '\U{3000}'
  }

  predicate IsDigit(c: char)
  {
    '0' <= c <= '9'
  }

  predicate AllSpace(s: string)
  {
    forall i :: 0 <= i < |s| ==> IsSpace(s[i])
  }

  predicate AllDigits(s: string)
  {
    forall i :: 0 <= i < |s| ==> IsDigit(s[i])
  }

  /** The Vietnamese capital letters with diacritics, as the header heuristic lists them. */
  const VietUpper: string := "ÀÁẠẢÃÂẦẤẬẨẪĂẰẮẶẲẴÈÉẸẺẼÊỀẾỆỂỄÌÍỊỈĨÒÓỌỎÕÔỒỐỘỔỖƠỜỚỢỞỠÙÚỤỦŨƯỪỨỰỬỮỲÝỴỶỸĐ"

  /** Membership in `VietUpper`, by code point: the even code points of
      U+1EA0..U+1EF8, sixteen Latin-1 capitals and six Latin Extended ones. */
  predicate IsVietUpper(c: char)
  {
    var n := c as int;
    (0x1EA0 <= n <= 0x1EF8 && n % 2 == 0)
    || (0xC0 <= n <= 0xC3) || (0xC8 <= n <= 0xCA) || (0xCC <= n <= 0xCD) || (0xD2 <= n <= 0xD5)
    || (0xD9 <= n <= 0xDA) || n == 0xDD
    || n == 0x102 || n == 0x110 || n == 0x128 || n == 0x168 || n == 0x1A0 || n == 0x1AF
  }

  /** The lower-case forms of `VietUpper`. */
  predicate IsVietLower(c: char)
  {
    var n := c as int;
    (0x1EA1 <= n <= 0x1EF9 && n % 2 == 1)
    || (0xE0 <= n <= 0xE3) || (0xE8 <= n <= 0xEA) || (0xEC <= n <= 0xED) || (0xF2 <= n <= 0xF5)
    || (0xF9 <= n <= 0xFA) || n == 0xFD
    || n == 0x103 || n == 0x111 || n == 0x129 || n == 0x169 || n == 0x1A1 || n == 0x1B0
  }

  predicate IsUpperChar(c: char)
  {
    ('A' <= c <= 'Z') || IsVietUpper(c)
  }

  predicate IsLowerChar(c: char)
  {
    ('a' <= c <= 'z') || IsVietLower(c)
  }

  predicate IsCased(c: char)
  {
    IsUpperChar(c) || IsLowerChar(c)
  }

  /** `c.lower()` for the letters above; every other character is left as it is. */
  function LowerChar(c: char): (d: char)
    ensures !IsUpperChar(c) ==> d == c
    ensures IsUpperChar(c) ==> IsLowerChar(d)
  {
    var n := c as int;
    if 'A' <= c <= 'Z' || (0xC0 <= n <= 0xDD && IsVietUpper(c)) then (n + 0x20) as char
    else if IsVietUpper(c) then (n + 1) as char
    else c
  }

  /** Whitespace, digits and cased letters are disjoint classes. */
  lemma CharClassesDisjoint(c: char)
    ensures IsSpace(c) ==> !IsCased(c) && !IsDigit(c)
    ensures IsDigit(c) ==> !IsCased(c)
  {
  }

  /** `str.lower()` */
  function Lower(s: string): (r: string)
    ensures |r| == |s|
    ensures forall i :: 0 <= i < |s| ==> r[i] == LowerChar(s[i])
  {
    seq(|s|, i requires 0 <= i < |s| => LowerChar(s[i]))
  }

  /** `str.isupper()`: at least one cased character and no lower-case one. */
  predicate IsUpper(s: string)
  {
    (exists i :: 0 <= i < |s| && IsCased(s[i])) && forall i :: 0 <= i < |s| ==> !IsLowerChar(s[i])
  }

  // ---------------------------------------------------------------------------
  // Runs of characters of one class
  // ---------------------------------------------------------------------------

  /** End of the longest run of characters satisfying `p` that starts at `i`. */
  function RunEnd(s: string, i: nat, p: char -> bool): (j: nat)
    requires i <= |s|
    ensures i <= j <= |s|
    ensures forall k :: i <= k < j ==> p(s[k])
    ensures j < |s| ==> !p(s[j])
    decreases |s| - i
  {
    if i < |s| && p(s[i]) then RunEnd(s, i + 1, p) else i
  }

  /** A run that is bounded by a character outside the class ends where `RunEnd` says. */
  lemma RunEndUnique(s: string, i: nat, j: nat, p: char -> bool)
    requires i <= j <= |s|
    requires forall k :: i <= k < j ==> p(s[k])
    requires j < |s| ==> !p(s[j])
    ensures RunEnd(s, i, p) == j
  {
  }

  /** Start of the longest run of characters satisfying `p` that ends at `j`. */
  function RunStart(s: string, j: nat, p: char -> bool): (i: nat)
    requires j <= |s|
    ensures i <= j
    ensures forall k :: i <= k < j ==> p(s[k])
    ensures i > 0 ==> !p(s[i - 1])
  {
    if j > 0 && p(s[j - 1]) then RunStart(s, j - 1, p) else j
  }

  lemma RunStartUnique(s: string, i: nat, j: nat, p: char -> bool)
    requires i <= j <= |s|
    requires forall k :: i <= k < j ==> p(s[k])
    requires i > 0 ==> !p(s[i - 1])
    ensures RunStart(s, j, p) == i
  {
  }

  // ---------------------------------------------------------------------------
  // strip
  // ---------------------------------------------------------------------------

  /** No leading and no trailing whitespace. */
  predicate Trimmed(s: string)
  {
    |s| == 0 || (!IsSpace(s[0]) && !IsSpace(s[|s| - 1]))
  }

  /** Where the leading whitespace of `s` ends. */
  function StripStart(s: string): (i: nat)
    ensures i <= |s| && AllSpace(s[..i])
    ensures i < |s| ==> !IsSpace(s[i])
  {
    RunEnd(s, 0, IsSpace)
  }

  /** Where the trailing whitespace of `s` begins (never before `StripStart`). */
  function StripEnd(s: string): (j: nat)
    ensures StripStart(s) <= j <= |s| && AllSpace(s[j..])
    ensures j > StripStart(s) ==> !IsSpace(s[j - 1])
  {
    if StripStart(s) == |s| then |s| else RunStart(s, |s|, IsSpace)
  }

  /** `str.strip()`: the result is `s` with its leading and trailing whitespace removed. */
  function Strip(s: string): (r: string)
    ensures Trimmed(r)
    ensures s == s[..StripStart(s)] + r + s[StripEnd(s)..]
    ensures r == "" <==> AllSpace(s)
  {
    var i, j := StripStart(s), StripEnd(s);
    assert s == s[..i] + s[i..j] + s[j..];
    assert AllSpace(s) ==> i == |s|;
    s[i..j]
  }

  /** Stripping removes exactly the surrounding whitespace: the stripped form of
      `a + x + b` is `x` whenever `a` and `b` are whitespace and `x` is trimmed. */
  lemma StripUnique(a: string, x: string, b: string)
    requires AllSpace(a) && AllSpace(b) && Trimmed(x)
    ensures Strip(a + x + b) == x
  {
    var s := a + x + b;
    ConcatThree(s, a, x, b);
    StripBetween(s, |a|, |a| + |x|, x);
  }

  /** The positions of the three parts of `a + x + b`. */
  lemma ConcatThree(s: string, a: string, x: string, b: string)
    requires s == a + x + b
    ensures |s| == |a| + |x| + |b| && s[|a|..|a| + |x|] == x
    ensures forall k :: 0 <= k < |a| ==> s[k] == a[k]
    ensures forall k :: 0 <= k < |x| ==> s[|a| + k] == x[k]
    ensures forall k :: |a| + |x| <= k < |s| ==> s[k] == b[k - |a| - |x|]
  {
    assert s[|a|..|a| + |x|] == x;
  }

  /** A trimmed slice with only whitespace around it is the strip of the whole. */
  lemma StripBetween(s: string, i: nat, j: nat, x: string)
    requires i <= j <= |s| && j == i + |x| && Trimmed(x)
    requires forall m :: 0 <= m < |x| ==> s[i + m] == x[m]
    requires forall k :: 0 <= k < i ==> IsSpace(s[k])
    requires forall k :: j <= k < |s| ==> IsSpace(s[k])
    ensures Strip(s) == x
  {
    assert s[i..j] == x by {
      forall m | 0 <= m < |x| ensures s[i..j][m] == x[m] {
        assert s[i + m] == x[m];
      }
    }
    if i == j {
      assert AllSpace(s) by {
        forall k | 0 <= k < |s| ensures IsSpace(s[k]) {
          assert k < i || j <= k;
        }
      }
    } else {
      assert s[i] == x[0] && s[j - 1] == x[|x| - 1];
      RunEndUnique(s, 0, i, IsSpace);
      RunStartUnique(s, j, |s|, IsSpace);
    }
  }

  lemma AllSpaceConcat(a: string, b: string)
    requires AllSpace(a) && AllSpace(b)
    ensures AllSpace(a + b)
  {
    forall k | 0 <= k < |a + b| ensures IsSpace((a + b)[k]) {
      if k < |a| { assert (a + b)[k] == a[k]; } else { assert (a + b)[k] == b[k - |a|]; }
    }
  }

  /** Whitespace around a string does not change its strip. */
  lemma StripPadded(a: string, x: string, b: string)
    requires AllSpace(a) && AllSpace(b)
    ensures Strip(a + x + b) == Strip(x)
  {
    var i, j := StripStart(x), StripEnd(x);
    var pre, r, post := x[..i], Strip(x), x[j..];
    assert x == pre + r + post;
    Regroup(a, pre, r, post, b);
    AllSpaceConcat(a, pre);
    AllSpaceConcat(post, b);
    StripUnique(a + pre, r, post + b);
  }

  lemma Regroup(a: string, p: string, r: string, q: string, b: string)
    ensures a + (p + r + q) + b == (a + p) + r + (q + b)
  {
    assert a + (p + r + q) + b == a + p + r + q + b;
  }

  /** Stripping is idempotent. */
  lemma StripIdempotent(s: string)
    ensures Strip(Strip(s)) == Strip(s)
  {
    var r := Strip(s);
    assert "" + r + "" == r;
    StripUnique("", r, "");
  }

  /** A trimmed string is its own strip. */
  lemma StripTrimmed(s: string)
    requires Trimmed(s)
    ensures Strip(s) == s
  {
    assert "" + s + "" == s;
    StripUnique("", s, "");
  }

  // ---------------------------------------------------------------------------
  // Searching
  // ---------------------------------------------------------------------------

  predicate StartsWith(s: string, p: string)
  {
    |p| <= |s| && s[..|p|] == p
  }

  predicate EndsWith(s: string, p: string)
  {
    |p| <= |s| && s[|s| - |p|..] == p
  }

  /** `t` occurs in `s` at position `i`. */
  predicate Occurs(s: string, t: string, i: int)
  {
    0 <= i && i + |t| <= |s| && s[i..i + |t|] == t
  }

  /** `s.find(t, from)`: the leftmost occurrence of `t` at or after `from`. */
  function IndexFrom(s: string, t: string, from: nat): (r: Option<nat>)
    requires from <= |s|
    ensures r.Some? ==> from <= r.value && Occurs(s, t, r.value)
    ensures r.Some? ==> forall j :: from <= j < r.value ==> !Occurs(s, t, j)
    ensures r.None? ==> forall j :: from <= j ==> !Occurs(s, t, j)
    decreases |s| - from
  {
    if Occurs(s, t, from) then Some(from)
    else if from == |s| then None
    else IndexFrom(s, t, from + 1)
  }

  /** `find` returns an occurrence exactly when it is the first one at or after `from`. */
  lemma IndexFromFirst(s: string, t: string, from: nat, k: nat)
    requires from <= k && Occurs(s, t, k)
    requires forall j :: from <= j < k ==> !Occurs(s, t, j)
    ensures IndexFrom(s, t, from) == Some(k)
  {
  }

  /** An occurrence is ruled out by one mismatching character inside its window. */
  lemma NoOccurrenceAcross(s: string, t: string, j: nat, k: nat)
    requires j <= k < j + |t| && k < |s| && s[k] != t[k - j]
    ensures !Occurs(s, t, j)
  {
  }

  lemma SliceOfSlice(s: string, lo: nat, hi: nat, i: nat, j: nat)
    requires lo <= hi <= |s| && i <= j <= hi - lo
    ensures s[lo..hi][i..j] == s[lo + i..lo + j]
  {
    assert forall k :: 0 <= k < j - i ==> s[lo..hi][i..j][k] == s[lo + i + k];
  }

  /** An occurrence inside a slice is an occurrence in the whole string. */
  lemma OccursInSlice(s: string, t: string, lo: nat, hi: nat, j: nat)
    requires lo <= hi <= |s| && Occurs(s[lo..hi], t, j)
    ensures Occurs(s, t, lo + j)
  {
    forall k | 0 <= k < |t| ensures s[lo + j..lo + j + |t|][k] == t[k] {
      assert s[lo..hi][j..j + |t|][k] == t[k];
    }
  }

  /** `t in s` (substring test). */
  predicate Contains(s: string, t: string)
  {
    exists j :: 0 <= j <= |s| - |t| && Occurs(s, t, j)
  }

  /** The substring test agrees with `find`. */
  lemma ContainsIndex(s: string, t: string)
    ensures Contains(s, t) <==> IndexFrom(s, t, 0).Some?
  {
  }

  lemma OccursInConcat(x: string, t: string, y: string)
    ensures Occurs(x + t + y, t, |x|)
  {
    assert (x + t + y)[|x|..|x| + |t|] == t;
  }

  /** The pieces `lo` to `hi - 1` of `parts`, concatenated in order. */
  function ConcatRange(parts: seq<string>, lo: nat, hi: nat): string
    requires lo <= hi <= |parts|
    decreases hi
  {
    if hi == lo then "" else ConcatRange(parts, lo, hi - 1) + parts[hi - 1]
  }

  /** A range of one part is that part. */
  lemma ConcatRangeOne(parts: seq<string>, i: nat)
    requires i < |parts|
    ensures ConcatRange(parts, i, i + 1) == parts[i]
  {
    assert ConcatRange(parts, i, i + 1) == "" + parts[i];
  }

  /** Consecutive ranges concatenate. */
  lemma {:induction false} ConcatRangeSplit(parts: seq<string>, lo: nat, mid: nat, hi: nat)
    requires lo <= mid <= hi <= |parts|
    ensures ConcatRange(parts, lo, hi) == ConcatRange(parts, lo, mid) + ConcatRange(parts, mid, hi)
    decreases hi
  {
    if hi > mid {
      ConcatRangeSplit(parts, lo, mid, hi - 1);
      ConcatAssoc(ConcatRange(parts, lo, mid), ConcatRange(parts, mid, hi - 1), parts[hi - 1]);
    } else {
      assert ConcatRange(parts, lo, mid) + "" == ConcatRange(parts, lo, mid);
    }
  }

  /** Concatenation regroups freely. */
  lemma ConcatAssoc<T>(a: seq<T>, b: seq<T>, c: seq<T>)
    ensures a + (b + c) == (a + b) + c
  {
  }

  /** Any string that is built around `t` contains `t`. */
  lemma ContainsInConcat(x: string, t: string, y: string)
    ensures Contains(x + t + y, t)
  {
    OccursInConcat(x, t, y);
  }

  /** Text added after a string keeps what it contains. */
  lemma ContainsExtend(s: string, t: string, y: string)
    requires Contains(s, t)
    ensures Contains(s + y, t)
  {
    var j :| 0 <= j <= |s| - |t| && Occurs(s, t, j);
    assert (s + y)[j..j + |t|] == s[j..j + |t|];
    assert Occurs(s + y, t, j);
  }

  /** Text added before a string keeps what it contains. */
  lemma ContainsPrepend(x: string, s: string, t: string)
    requires Contains(s, t)
    ensures Contains(x + s, t)
  {
    var j :| 0 <= j <= |s| - |t| && Occurs(s, t, j);
    assert (x + s)[|x| + j..|x| + j + |t|] == s[j..j + |t|];
    assert Occurs(x + s, t, |x| + j);
  }

  // ---------------------------------------------------------------------------
  // split / join / count / replace
  // ---------------------------------------------------------------------------

  /** `s.split(sep)` for a non-empty separator: the pieces between the
      non-overlapping, left-to-right occurrences of `sep`. */
  function Split(s: string, sep: string): (parts: seq<string>)
    requires |sep| > 0
    ensures |parts| >= 1
    decreases |s|
  {
    match IndexFrom(s, sep, 0)
    case None => [s]
    case Some(i) => [s[..i]] + Split(s[i + |sep|..], sep)
  }

  /** One step of `Split`: the piece before the first separator, then the split of the rest. */
  lemma SplitStep(s: string, sep: string, i: nat)
    requires |sep| > 0 && IndexFrom(s, sep, 0) == Some(i)
    ensures s == s[..i] + sep + s[i + |sep|..]
    ensures Split(s, sep) == [s[..i]] + Split(s[i + |sep|..], sep)
    ensures !Contains(s[..i], sep)
  {
    assert s[i..i + |sep|] == sep;
    assert s == s[..i] + s[i..i + |sep|] + s[i + |sep|..];
    PrefixBeforeFirst(s, sep, i);
  }

  /** A prefix that ends where the first occurrence begins does not contain it. */
  lemma PrefixBeforeFirst(s: string, t: string, i: nat)
    requires |t| > 0 && i <= |s|
    requires forall j :: 0 <= j < i ==> !Occurs(s, t, j)
    ensures !Contains(s[..i], t)
  {
    forall j | 0 <= j <= i - |t| ensures !Occurs(s[..i], t, j) {
      assert s[..i][j..j + |t|] == s[j..j + |t|];
      assert !Occurs(s, t, j);
    }
  }

  /** A slice in which no occurrence starts does not contain `t`. */
  lemma SliceAvoids(s: string, t: string, lo: nat, hi: nat)
    requires |t| > 0 && lo <= hi <= |s|
    requires forall j :: lo <= j < hi ==> !Occurs(s, t, j)
    ensures !Contains(s[lo..hi], t)
  {
    forall j | 0 <= j <= hi - lo - |t| ensures !Occurs(s[lo..hi], t, j) {
      SliceOfSlice(s, lo, hi, j, j + |t|);
      assert !Occurs(s, t, lo + j);
    }
  }

  /** Stripping text that does not contain `t` gives text that does not either. */
  lemma StripAvoids(s: string, t: string)
    requires |t| > 0 && !Contains(s, t)
    ensures !Contains(Strip(s), t)
  {
    var lo, hi := StripStart(s), StripEnd(s);
    assert Strip(s) == s[lo..hi];
    forall j | lo <= j < hi ensures !Occurs(s, t, j) {
      if j <= |s| - |t| {
        assert !Occurs(s, t, j);
      }
    }
    SliceAvoids(s, t, lo, hi);
  }

  /** No piece of a split contains the separator. */
  lemma {:induction false} SplitPiecesFree(s: string, sep: string)
    requires |sep| > 0
    ensures forall k :: 0 <= k < |Split(s, sep)| ==> !Contains(Split(s, sep)[k], sep)
    decreases |s|
  {
    match IndexFrom(s, sep, 0)
    case None =>
      assert Split(s, sep) == [s];
    case Some(i) =>
      SplitStep(s, sep, i);
      SplitPiecesFree(s[i + |sep|..], sep);
  }

  /** `sep.join(parts)` */
  function Join(parts: seq<string>, sep: string): string
  {
    if |parts| == 0 then ""
    else if |parts| == 1 then parts[0]
    else parts[0] + sep + Join(parts[1..], sep)
  }

  /** Splitting and re-joining with the same separator gives back the string. */
  lemma {:induction false} SplitJoin(s: string, sep: string)
    requires |sep| > 0
    ensures Join(Split(s, sep), sep) == s
    decreases |s|
  {
    match IndexFrom(s, sep, 0)
    case None =>
    case Some(i) =>
      var rest := s[i + |sep|..];
      SplitStep(s, sep, i);
      SplitJoin(rest, sep);
      JoinCons(s[..i], Split(rest, sep), sep);
  }

  lemma JoinCons(x: string, tail: seq<string>, sep: string)
    requires |tail| > 0
    ensures Join([x] + tail, sep) == x + sep + Join(tail, sep)
  {
    assert ([x] + tail)[1..] == tail;
  }

  lemma {:induction false} JoinAppend(a: seq<string>, b: seq<string>, sep: string)
    requires |a| > 0 && |b| > 0
    ensures Join(a + b, sep) == Join(a, sep) + sep + Join(b, sep)
    decreases |a|
  {
    if |a| == 1 {
      assert (a + b)[1..] == b;
    } else {
      assert (a + b)[1..] == a[1..] + b;
      JoinAppend(a[1..], b, sep);
    }
  }

  lemma JoinSnoc(a: seq<string>, x: string, sep: string)
    requires |a| > 0
    ensures Join(a + [x], sep) == Join(a, sep) + sep + x
  {
    JoinAppend(a, [x], sep);
  }

  /** `s.count(t)` for a non-empty `t`: the number of non-overlapping occurrences. */
  function Count(s: string, t: string): nat
    requires |t| > 0
    decreases |s|
  {
    match IndexFrom(s, t, 0)
    case None => 0
    case Some(i) => 1 + Count(s[i + |t|..], t)
  }

  /** `s.split(t)` has one more piece than `s.count(t)`. */
  lemma {:induction false} SplitLength(s: string, t: string)
    requires |t| > 0
    ensures |Split(s, t)| == Count(s, t) + 1
    decreases |s|
  {
    match IndexFrom(s, t, 0)
    case None =>
    case Some(i) => SplitLength(s[i + |t|..], t);
  }

  lemma CountPositiveContains(s: string, t: string)
    requires |t| > 0 && Count(s, t) > 0
    ensures Contains(s, t)
  {
    var r := IndexFrom(s, t, 0);
    assert r.Some?;
    assert Occurs(s, t, r.value);
  }

  /** `s.replace(pat, rep)` for a non-empty `pat`. */
  function ReplaceAll(s: string, pat: string, rep: string): string
    requires |pat| > 0
  {
    Join(Split(s, pat), rep)
  }

  /** Replacing a pattern that does not occur changes nothing. */
  lemma ReplaceAbsent(s: string, pat: string, rep: string)
    requires |pat| > 0 && !Contains(s, pat)
    ensures ReplaceAll(s, pat, rep) == s
  {
  }

  /** A string that is just the pattern is replaced whole. */
  lemma ReplaceWhole(pat: string, rep: string)
    requires |pat| > 0
    ensures ReplaceAll(pat, pat, rep) == rep
  {
    assert Occurs(pat, pat, 0) by {
      assert pat[0..|pat|] == pat;
    }
    assert IndexFrom(pat, pat, 0) == Some(0);
    assert pat[|pat|..] == "";
    assert IndexFrom("", pat, 0) == None;
    assert pat[..0] == "";
    assert Split(pat, pat) == [""] + Split("", pat);
    assert Split("", pat) == [""];
    assert Join(["", ""], rep) == "" + rep + Join([""], rep);
  }

  /** Every occurrence replaced changes the length by `|rep| - |pat|`. */
  lemma {:induction false} ReplaceLength(s: string, pat: string, rep: string)
    requires |pat| > 0
    ensures |ReplaceAll(s, pat, rep)| == |s| + Count(s, pat) * (|rep| - |pat|)
    decreases |s|
  {
    match IndexFrom(s, pat, 0)
    case None =>
    case Some(i) =>
      var rest := s[i + |pat|..];
      SplitStep(s, pat, i);
      ReplaceLength(rest, pat, rep);
      JoinCons(s[..i], Split(rest, pat), rep);
      var c := Count(rest, pat);
      var d := |rep| - |pat|;
      assert Count(s, pat) == 1 + c;
      assert |ReplaceAll(s, pat, rep)| == i + |rep| + |ReplaceAll(rest, pat, rep)|;
      assert |s| == i + |pat| + |rest|;
      SuccessorProduct(c, d);
  }

  lemma SuccessorProduct(c: int, d: int)
    ensures (1 + c) * d == d + c * d
  {
  }

  /** `c not in s` */
  predicate NoChar(s: string, c: char)
  {
    forall i :: 0 <= i < |s| ==> s[i] != c
  }

  lemma NoCharOfAbsent(s: string, c: char)
    requires !Contains(s, [c])
    ensures NoChar(s, c)
  {
    forall i | 0 <= i < |s|
      ensures s[i] != c
    {
      CharContained(s, i);
    }
  }

  lemma CharContained(s: string, i: nat)
    requires i < |s|
    ensures Contains(s, [s[i]])
  {
    assert Occurs(s, [s[i]], i);
  }

  /** Pieces and separator free of `c` join to a string free of `c`. */
  lemma {:induction false} NoCharJoin(parts: seq<string>, sep: string, c: char)
    requires NoChar(sep, c) && forall k :: 0 <= k < |parts| ==> NoChar(parts[k], c)
    ensures NoChar(Join(parts, sep), c)
  {
    if |parts| > 1 {
      NoCharJoin(parts[1..], sep, c);
    }
  }

  /** The pieces of a string free of `c` are free of `c`. */
  lemma {:induction false} NoCharSplit(s: string, sep: string, c: char)
    requires |sep| > 0 && NoChar(s, c)
    ensures forall k :: 0 <= k < |Split(s, sep)| ==> NoChar(Split(s, sep)[k], c)
    decreases |s|
  {
    match IndexFrom(s, sep, 0)
    case None =>
    case Some(i) =>
      SplitStep(s, sep, i);
      var rest := s[i + |sep|..];
      assert NoChar(rest, c);
      NoCharSplit(rest, sep, c);
  }

  /** A suffix past which `c` never occurs is free of `c`. */
  lemma NoCharAfter(s: string, i: nat, c: char)
    requires i <= |s|
    requires forall j :: i <= j < |s| ==> s[j] != c
    ensures NoChar(s[i..], c)
  {
    forall k | 0 <= k < |s| - i ensures s[i..][k] != c {
      assert s[i..][k] == s[i + k];
    }
  }

  lemma NoCharStrip(s: string, c: char)
    requires NoChar(s, c)
    ensures NoChar(Strip(s), c)
  {
    var r, i, j := Strip(s), StripStart(s), StripEnd(s);
    assert r == s[i..j];
    forall k | 0 <= k < |r| ensures r[k] != c {
      assert r[k] == s[i + k];
    }
  }

  /** `s.replace("\n", " ")` has no line break left. */
  lemma NoLineBreakAfterReplace(s: string)
    ensures NoChar(ReplaceAll(s, "\n", " "), '\n')
  {
    var parts := Split(s, "\n");
    SplitPiecesFree(s, "\n");
    forall k | 0 <= k < |parts|
      ensures NoChar(parts[k], '\n')
    {
      NoCharOfAbsent(parts[k], '\n');
    }
    NoCharJoin(parts, " ", '\n');
  }

  // ---------------------------------------------------------------------------
  // str.split() with no separator
  // ---------------------------------------------------------------------------

  predicate NotSpace(c: char)
  {
    !IsSpace(c)
  }

  predicate NoSpace(w: string)
  {
    forall i :: 0 <= i < |w| ==> !IsSpace(w[i])
  }

  /** `s.split()`: the maximal runs of non-whitespace characters, in order. */
  function Words(s: string): (ws: seq<string>)
    ensures forall k :: 0 <= k < |ws| ==> |ws[k]| > 0 && NoSpace(ws[k])
    decreases |s|
  {
    var a := RunEnd(s, 0, IsSpace);
    if a == |s| then []
    else
      var n := RunEnd(s, a, NotSpace);
      assert forall i :: 0 <= i < n - a ==> s[a..n][i] == s[a + i];
      [s[a..n]] + Words(s[n..])
  }

  // ---------------------------------------------------------------------------
  // Decimal formatting
  // ---------------------------------------------------------------------------

  function DigitChar(d: nat): (c: char)
    requires d < 10
    ensures IsDigit(c)
  {
    ('0' as int + d) as char
  }

  /** The value of a string of decimal digits. */
  function DecimalValue(s: string): nat
    requires AllDigits(s)
  {
    if |s| == 0 then 0 else 10 * DecimalValue(s[..|s| - 1]) + (s[|s| - 1] as int - '0' as int)
  }

  /** `str(n)` for a natural number `n`. */
  function NatToString(n: nat): (r: string)
    ensures |r| > 0 && AllDigits(r)
  {
    if n < 10 then [DigitChar(n)] else NatToString(n / 10) + [DigitChar(n % 10)]
  }

  /** Decimal formatting is inverted by reading the digits back. */
  lemma {:induction false} NatToStringValue(n: nat)
    ensures DecimalValue(NatToString(n)) == n
  {
    if n >= 10 {
      NatToStringValue(n / 10);
      var r := NatToString(n);
      assert r[..|r| - 1] == NatToString(n / 10);
    }
  }
}
