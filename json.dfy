/**
 * JSON values as Python's `json` module produces and consumes them.
 *
 * Parsing is abstract: a `Parser` is any function from text to an optional
 * value (`None` stands for `json.JSONDecodeError`).  Serialisation of string
 * literals is modelled exactly as `json.dumps` writes them with its default
 * `ensure_ascii=True`, together with a decoder that reads them back.
 */
module Json {
  import opened Wrappers
  import opened Text

  datatype JValue =
    | JNull
    | JBool(b: bool)
    | JInt(n: int)
    | JFloat(x: real)
    | JString(str: string)
    | JArray(items: seq<JValue>)
    | JObject(fields: seq<(string, JValue)>)

  /** `json.loads`, left abstract. */
  type Parser = string -> Option<JValue>

  /** `json.loads(s)` succeeds. */
  predicate IsValidJson(parse: Parser, s: string)
  {
    parse(s).Some?
  }

  // ---------------------------------------------------------------------------
  // Objects as Python dicts
  // ---------------------------------------------------------------------------

  predicate HasField(fields: seq<(string, JValue)>, key: string)
  {
    exists i :: 0 <= i < |fields| && fields[i].0 == key
  }

  /** `d[key]`: the value of the last entry with that key (what `json.loads` keeps
      when a key is repeated), or `None` for a `KeyError`. */
  function Lookup(fields: seq<(string, JValue)>, key: string): (r: Option<JValue>)
    ensures r.Some? <==> HasField(fields, key)
    ensures r.Some? ==> (key, r.value) in fields
    decreases |fields|
  {
    if |fields| == 0 then None
    else if fields[|fields| - 1].0 == key then Some(fields[|fields| - 1].1)
    else
      var r := Lookup(fields[..|fields| - 1], key);
      assert HasField(fields, key) ==> HasField(fields[..|fields| - 1], key) by {
        if HasField(fields, key) {
          var i :| 0 <= i < |fields| && fields[i].0 == key;
          assert fields[..|fields| - 1][i].0 == key;
        }
      }
      assert r.Some? ==> (key, r.value) in fields by {
        if r.Some? {
          var i :| 0 <= i < |fields| - 1 && fields[..|fields| - 1][i] == (key, r.value);
          assert fields[i] == (key, r.value);
        }
      }
      r
  }

  /** An entry appended at the end is what a lookup of its key finds. */
  lemma LookupAppended(fields: seq<(string, JValue)>, key: string, v: JValue)
    ensures Lookup(fields + [(key, v)], key) == Some(v)
  {
  }

  /** Appending an entry for one key leaves every other key's lookup as it was. */
  lemma LookupAppendedOther(fields: seq<(string, JValue)>, key: string, v: JValue, other: string)
    requires other != key
    ensures Lookup(fields + [(key, v)], other) == Lookup(fields, other)
  {
    assert (fields + [(key, v)])[..|fields|] == fields;
  }

  /** `key in d` for a JSON value (`False` for anything that is not an object). */
  predicate HasKey(v: JValue, key: string)
  {
    v.JObject? && HasField(v.fields, key)
  }

  /** `d.get(key, default)` on a dict. */
  function GetOr(fields: seq<(string, JValue)>, key: string, default: JValue): (r: JValue)
    ensures HasField(fields, key) ==> (key, r) in fields
    ensures !HasField(fields, key) ==> r == default
  {
    match Lookup(fields, key)
    case Some(v) => v
    case None => default
  }

  /** Python truthiness of a JSON value. */
  predicate Truthy(v: JValue)
  {
    match v
    case JNull => false
    case JBool(b) => b
    case JInt(n) => n != 0
    case JFloat(x) => x != 0.0
    case JString(s) => |s| > 0
    case JArray(items) => |items| > 0
    case JObject(fields) => |fields| > 0
  }

  // ---------------------------------------------------------------------------
  // Python operations on decoded values
  // ---------------------------------------------------------------------------

  /** Python's name for the type of a decoded JSON value. */
  function TypeName(v: JValue): string
  {
    match v
    case JNull => "NoneType"
    case JBool(_) => "bool"
    case JInt(_) => "int"
    case JFloat(_) => "float"
    case JString(_) => "str"
    case JArray(_) => "list"
    case JObject(_) => "dict"
  }

  /** The `AttributeError` raised by `.get` on a value that is not a dict. */
  function NoGetMessage(v: JValue): string
  {
    "'" + TypeName(v) + "' object has no attribute 'get'"
  }

  /** What a `for` loop over a decoded value visits: a list's items, a dict's
      keys or a string's characters; iterating anything else raises. */
  function Iterate(v: JValue): Result<seq<JValue>, string>
  {
    match v
    case JArray(items) => Ok(items)
    case JObject(fields) => Ok(seq(|fields|, i requires 0 <= i < |fields| => JString(fields[i].0)))
    case JString(s) => Ok(seq(|s|, i requires 0 <= i < |s| => JString([s[i]])))
    case _ => Err("'" + TypeName(v) + "' object is not iterable")
  }

  // ---------------------------------------------------------------------------
  // json.dumps of strings
  // ---------------------------------------------------------------------------

  const HexDigits: string := "0123456789abcdef"

  function HexValue(c: char): Option<nat>
  {
    if '0' <= c <= '9' then Some(c as int - '0' as int)
    else if 'a' <= c <= 'f' then Some(c as int - 'a' as int + 10)
    else if 'A' <= c <= 'F' then Some(c as int - 'A' as int + 10)
    else None
  }

  /** Four lower-case hexadecimal digits, as in `'\\u%04x'`. */
  function Hex4(n: nat): (h: string)
    requires n < 0x10000
    ensures |h| == 4
  {
    [HexDigits[n / 16 / 16 / 16], HexDigits[n / 16 / 16 % 16], HexDigits[n / 16 % 16], HexDigits[n % 16]]
  }

  /** The value of four hexadecimal digits of either case. */
  function Hex4Value(h: string): Option<nat>
    requires |h| == 4
  {
    match (HexValue(h[0]), HexValue(h[1]), HexValue(h[2]), HexValue(h[3]))
    case (Some(a), Some(b), Some(c), Some(d)) => Some(a * 0x1000 + b * 0x100 + c * 0x10 + d)
    case _ => None
  }

  lemma HexDigitValue(d: nat)
    requires d < 16
    ensures HexValue(HexDigits[d]) == Some(d)
  {
  }

  /** Four-digit hexadecimal formatting is read back exactly. */
  lemma Hex4RoundTrip(n: nat)
    requires n < 0x10000
    ensures Hex4Value(Hex4(n)) == Some(n)
  {
    var q1, d := n / 16, n % 16;
    var q2, c := q1 / 16, q1 % 16;
    var a, b := q2 / 16, q2 % 16;
    HexDigitValue(a);
    HexDigitValue(b);
    HexDigitValue(c);
    HexDigitValue(d);
    assert a * 0x1000 + b * 0x100 + c * 0x10 + d == 16 * (16 * (16 * a + b) + c) + d;
  }

  /** How `json.dumps` writes one character inside a string literal. */
  function EscapeChar(c: char): (e: string)
    ensures |e| > 0
  {
    if c == '"' then "\\\""
    else if c == '\\' then "\\\\"
    else if c == '\n' then "\\n"
    else if c == '\r' then "\\r"
    else if c == '\t' then "\\t"
    else if c == '\U{8}' then "\\b"
    else if c == '\U{C}' then "\\f"
    else if ' ' <= c <= '~' then [c]
    else if c as int < 0x10000 then "\\u" + Hex4(c as int)
    else "\\u" + Hex4(HighSurrogate(c)) + "\\u" + Hex4(LowSurrogate(c))
  }

  /** The UTF-16 surrogate pair of a code point above the basic plane. */
  function HighSurrogate(c: char): (h: nat)
    requires c as int >= 0x10000
    ensures 0xD800 <= h < 0xDC00
  {
    0xD800 + (c as int - 0x10000) / 0x400
  }

  function LowSurrogate(c: char): (l: nat)
    requires c as int >= 0x10000
    ensures 0xDC00 <= l < 0xE000
  {
    0xDC00 + (c as int - 0x10000) % 0x400
  }

  /** The code point a surrogate pair stands for. */
  function CombineSurrogates(hi: nat, lo: nat): (c: char)
    requires 0xD800 <= hi < 0xDC00 && 0xDC00 <= lo < 0xE000
    ensures c as int >= 0x10000
  {
    (0x10000 + (hi - 0xD800) * 0x400 + (lo - 0xDC00)) as char
  }

  /** The surrogate pair determines the code point. */
  lemma SurrogateCombine(c: char)
    requires c as int >= 0x10000
    ensures CombineSurrogates(HighSurrogate(c), LowSurrogate(c)) == c
  {
  }

  /** The body of a string literal, without its quotes. */
  function Escape(s: string): string
  {
    if |s| == 0 then "" else EscapeChar(s[0]) + Escape(s[1..])
  }

  /** `json.dumps(s)` for a string `s`. */
  function Quote(s: string): string
  {
    "\"" + Escape(s) + "\""
  }

  predicate Printable(s: string)
  {
    forall i :: 0 <= i < |s| ==> ' ' <= s[i] <= '~'
  }

  lemma Hex4Printable(n: nat)
    requires n < 0x10000
    ensures Printable(Hex4(n))
  {
    var q1, d := n / 16, n % 16;
    var q2, c := q1 / 16, q1 % 16;
    var a, b := q2 / 16, q2 % 16;
    HexDigitPrintable(a);
    HexDigitPrintable(b);
    HexDigitPrintable(c);
    HexDigitPrintable(d);
    assert Hex4(n) == [HexDigits[a], HexDigits[b], HexDigits[c], HexDigits[d]];
  }

  lemma HexDigitPrintable(d: nat)
    requires d < 16
    ensures ' ' <= HexDigits[d] <= '~'
  {
    assert Printable(HexDigits);
  }

  lemma PrintableConcat(a: string, b: string)
    requires Printable(a) && Printable(b)
    ensures Printable(a + b)
  {
  }

  lemma AstralEscapePrintable(c: char)
    requires c as int >= 0x10000
    ensures Printable(EscapeChar(c))
  {
    var hi, lo := Hex4(HighSurrogate(c)), Hex4(LowSurrogate(c));
    assert EscapeChar(c) == "\\u" + hi + "\\u" + lo;
    Hex4Printable(HighSurrogate(c));
    Hex4Printable(LowSurrogate(c));
    PrintableConcat("\\u", hi);
    PrintableConcat("\\u" + hi, "\\u");
    PrintableConcat("\\u" + hi + "\\u", lo);
  }

  lemma EscapeCharPrintable(c: char)
    ensures Printable(EscapeChar(c))
  {
    if c as int >= 0x10000 {
      AstralEscapePrintable(c);
    } else if c == '"' || c == '\\' || c == '\n' || c == '\r' || c == '\t' || c == '\U{8}' || c == '\U{C}' {
    } else if ' ' <= c <= '~' {
    } else {
      assert EscapeChar(c) == "\\u" + Hex4(c as int);
      Hex4Printable(c as int);
      PrintableConcat("\\u", Hex4(c as int));
    }
  }

  /** Every character `json.dumps` writes (with `ensure_ascii`) is printable ASCII. */
  lemma {:induction false} EscapePrintable(s: string)
    ensures Printable(Escape(s))
  {
    if |s| > 0 {
      EscapePrintable(s[1..]);
      EscapeCharPrintable(s[0]);
      PrintableConcat(EscapeChar(s[0]), Escape(s[1..]));
    }
  }

  /** One character of the literal whose escape `json.dumps` writes as `\uXXXX`:
      `None` for a malformed escape or a lone surrogate. */
  function DecodeUnicode(s: string): Option<(char, nat)>
  {
    if |s| < 6 || s[..2] != "\\u" then None
    else match Hex4Value(s[2..6])
      case None => None
      case Some(v) =>
        if v < 0xD800 || 0xE000 <= v then Some((v as char, 6))
        else if 0xDC00 <= v || |s| < 12 || s[6..8] != "\\u" then None
        else match Hex4Value(s[8..12])
          case None => None
          case Some(w) =>
            if 0xDC00 <= w < 0xE000 then Some((CombineSurrogates(v, w), 12))
            else None
  }

  /** Reads the body of a string literal up to its closing quote, giving the
      string it denotes and the text after the quote. */
  function DecodeString(s: string): Option<(string, string)>
    decreases |s|
  {
    if |s| == 0 then None
    else if s[0] == '"' then Some(("", s[1..]))
    else if s[0] < ' ' then None
    else if s[0] != '\\' then Prepend(s[0], DecodeString(s[1..]))
    else if |s| < 2 then None
    else if s[1] == 'u' then
      match DecodeUnicode(s)
      case None => None
      case Some((c, k)) => Prepend(c, DecodeString(s[k..]))
    else
      var c := s[1];
      var d :=
        if c == '"' then Some('"') else if c == '\\' then Some('\\') else if c == '/' then Some('/')
        else if c == 'n' then Some('\n') else if c == 'r' then Some('\r') else if c == 't' then Some('\t')
        else if c == 'b' then Some('\U{8}') else if c == 'f' then Some('\U{C}') else None;
      if d.None? then None else Prepend(d.value, DecodeString(s[2..]))
  }

  function Prepend(c: char, r: Option<(string, string)>): Option<(string, string)>
  {
    match r
    case None => None
    case Some((x, rest)) => Some(([c] + x, rest))
  }

  lemma DecodeUnicodeStep(s: string, c: char, k: nat)
    requires |s| >= 2 && s[0] == '\\' && s[1] == 'u' && DecodeUnicode(s) == Some((c, k))
    ensures k <= |s| && DecodeString(s) == Prepend(c, DecodeString(s[k..]))
  {
  }

  lemma DecodeBmpEscape(c: char, t: string)
    requires c as int < 0xD800 || 0xE000 <= c as int < 0x10000
    ensures DecodeString("\\u" + Hex4(c as int) + t) == Prepend(c, DecodeString(t))
  {
    var s := "\\u" + Hex4(c as int) + t;
    Hex4RoundTrip(c as int);
    assert s[..2] == "\\u" && s[2..6] == Hex4(c as int);
    assert DecodeUnicode(s) == Some((c, 6));
    assert s[6..] == t;
  }

  lemma DecodePairStep(h: string, l: string, t: string, c: char)
    requires c as int >= 0x10000 && |h| == 4 && |l| == 4
    requires Hex4Value(h) == Some(HighSurrogate(c)) && Hex4Value(l) == Some(LowSurrogate(c))
    ensures DecodeString("\\u" + h + "\\u" + l + t) == Prepend(c, DecodeString(t))
  {
    var s := "\\u" + h + "\\u" + l + t;
    assert s[..2] == "\\u" && s[2..6] == h;
    assert s[6..8] == "\\u" && s[8..12] == l;
    SurrogateCombine(c);
    assert DecodeUnicode(s) == Some((c, 12));
    DecodeUnicodeStep(s, c, 12);
    assert s[12..] == t;
  }

  lemma DecodeAstralEscape(c: char, t: string)
    requires 0x10000 <= c as int
    ensures DecodeString(EscapeChar(c) + t) == Prepend(c, DecodeString(t))
  {
    var h, l := Hex4(HighSurrogate(c)), Hex4(LowSurrogate(c));
    assert EscapeChar(c) + t == "\\u" + h + "\\u" + l + t;
    Hex4RoundTrip(HighSurrogate(c));
    Hex4RoundTrip(LowSurrogate(c));
    DecodePairStep(h, l, t, c);
  }

  /** Decoding one escaped character. */
  lemma DecodeEscapeChar(c: char, t: string)
    ensures DecodeString(EscapeChar(c) + t) == Prepend(c, DecodeString(t))
  {
    var s := EscapeChar(c) + t;
    if c == '"' || c == '\\' || c == '\n' || c == '\r' || c == '\t' || c == '\U{8}' || c == '\U{C}' {
      assert s[2..] == t;
    } else if ' ' <= c <= '~' {
      assert s[1..] == t;
    } else if c as int < 0x10000 {
      DecodeBmpEscape(c, t);
    } else {
      DecodeAstralEscape(c, t);
    }
  }

  /** String literals written by `json.dumps` read back as the original string,
      and decoding stops right after the closing quote. */
  lemma {:induction false} EscapeRoundTrip(x: string, rest: string)
    ensures DecodeString(Escape(x) + "\"" + rest) == Some((x, rest))
    decreases |x|
  {
    if |x| == 0 {
      assert Escape(x) + "\"" + rest == "\"" + rest;
      assert ("\"" + rest)[1..] == rest;
    } else {
      var t := Escape(x[1..]) + "\"" + rest;
      assert Escape(x) + "\"" + rest == EscapeChar(x[0]) + t;
      DecodeEscapeChar(x[0], t);
      EscapeRoundTrip(x[1..], rest);
      assert [x[0]] + x[1..] == x;
    }
  }

  /** Distinct strings are serialised differently. */
  lemma QuoteInjective(x: string, y: string)
    requires Quote(x) == Quote(y)
    ensures x == y
  {
    EscapeRoundTrip(x, "");
    EscapeRoundTrip(y, "");
    AfterFirst("\"", Escape(x), "\"", "");
    AfterFirst("\"", Escape(y), "\"", "");
  }

  lemma AfterFirst<T>(a: seq<T>, b: seq<T>, c: seq<T>, e: seq<T>)
    requires |a| == 1 && e == []
    ensures (a + b + c)[1..] == b + c + e
  {
    assert (a + b + c)[1..] == b + c;
  }

  // ---------------------------------------------------------------------------
  // json.dumps of a dict whose values are strings
  // ---------------------------------------------------------------------------

  /** One member, `"key": "value"`, with the default `": "` separator. */
  function Member(k: string, v: string): string
  {
    Quote(k) + ": " + Quote(v)
  }

  /** What follows the first member: `, ` before each further member, then `}`. */
  function MembersAfter(entries: seq<(string, string)>): string
  {
    if |entries| == 0 then "}" else ", " + Member(entries[0].0, entries[0].1) + MembersAfter(entries[1..])
  }

  /** `json.dumps(d)` for a dict of strings, its entries in insertion order. */
  function DumpsObject(entries: seq<(string, string)>): string
  {
    if |entries| == 0 then "{}" else "{" + Member(entries[0].0, entries[0].1) + MembersAfter(entries[1..])
  }

  /** Decoding a string literal consumes at least its closing quote. */
  lemma {:induction false} DecodeStringShorter(s: string)
    requires DecodeString(s).Some?
    ensures |DecodeString(s).value.1| < |s|
    decreases |s|
  {
    if s[0] == '"' {
    } else if s[0] != '\\' {
      DecodeStringShorter(s[1..]);
    } else if s[1] == 'u' {
      var k := DecodeUnicode(s).value.1;
      DecodeStringShorter(s[k..]);
    } else {
      DecodeStringShorter(s[2..]);
    }
  }

  /** Reads one member `"key": "value"`, giving its key, its value and the text after it. */
  function DecodeMember(s: string): (r: Option<(string, string, string)>)
    ensures r.Some? ==> |r.value.2| < |s|
  {
    if |s| == 0 || s[0] != '"' then None
    else match DecodeString(s[1..])
      case None => None
      case Some((k, r1)) =>
        if |r1| < 3 || r1[..3] != ": \"" then None
        else match DecodeString(r1[3..])
          case None => None
          case Some((v, r2)) =>
            DecodeStringShorter(s[1..]);
            DecodeStringShorter(r1[3..]);
            Some((k, v, r2))
  }

  /** Reads the members after the first one, up to the closing brace. */
  function DecodeMembersAfter(s: string): Option<seq<(string, string)>>
    decreases |s|
  {
    if s == "}" then Some([])
    else if |s| < 2 || s[..2] != ", " then None
    else match DecodeMember(s[2..])
      case None => None
      case Some((k, v, rest)) =>
        match DecodeMembersAfter(rest)
        case None => None
        case Some(more) => Some([(k, v)] + more)
  }

  /** `json.loads` restricted to objects whose values are strings, written with
      the default separators. */
  function DecodeObject(s: string): Option<seq<(string, string)>>
  {
    if s == "{}" then Some([])
    else if |s| == 0 || s[0] != '{' then None
    else match DecodeMember(s[1..])
      case None => None
      case Some((k, v, rest)) =>
        match DecodeMembersAfter(rest)
        case None => None
        case Some(more) => Some([(k, v)] + more)
  }

  lemma DecodeMemberParts(s: string, k: string, r1: string, v: string, r2: string)
    requires |s| > 0 && s[0] == '"' && DecodeString(s[1..]) == Some((k, r1))
    requires |r1| >= 3 && r1[..3] == ": \"" && DecodeString(r1[3..]) == Some((v, r2))
    ensures DecodeMember(s) == Some((k, v, r2))
  {
  }

  lemma DecodeMemberOf(k: string, v: string, t: string)
    ensures DecodeMember(Member(k, v) + t) == Some((k, v, t))
  {
    var tail := ": \"" + Escape(v) + "\"" + t;
    MemberShape(k, v, t);
    EscapeRoundTrip(k, tail);
    EscapeRoundTrip(v, t);
    DecodeMemberParts(Member(k, v) + t, k, tail, v, t);
  }

  lemma MemberShape(k: string, v: string, t: string)
    ensures var s, tail := Member(k, v) + t, ": \"" + Escape(v) + "\"" + t;
      && |s| > 0 && s[0] == '"' && s[1..] == Escape(k) + "\"" + tail
      && |tail| >= 3 && tail[..3] == ": \"" && tail[3..] == Escape(v) + "\"" + t
  {
    var ek, ev := Escape(k), Escape(v);
    MemberLayout(ek, ev, t);
    Regroup8("\"", ek, "\"", ": ", "\"", ev, "\"", t);
  }

  lemma Regroup8<T>(a: seq<T>, b: seq<T>, c: seq<T>, d: seq<T>, e: seq<T>, f: seq<T>, g: seq<T>, h: seq<T>)
    ensures (a + b + c) + d + (e + f + g) + h == a + b + c + d + e + f + g + h
  {
  }

  lemma MemberLayout(ek: string, ev: string, t: string)
    ensures var s := "\"" + ek + "\"" + ": " + "\"" + ev + "\"" + t;
      var tail := ": \"" + ev + "\"" + t;
      && |s| > 0 && s[0] == '"' && s[1..] == ek + "\"" + tail
      && |tail| >= 3 && tail[..3] == ": \"" && tail[3..] == ev + "\"" + t
  {
  }

  lemma DecodeMembersAfterStep(s: string, k: string, v: string, rest: string, more: seq<(string, string)>)
    requires |s| >= 2 && s[..2] == ", " && DecodeMember(s[2..]) == Some((k, v, rest))
    requires DecodeMembersAfter(rest) == Some(more)
    ensures DecodeMembersAfter(s) == Some([(k, v)] + more)
  {
    assert s[0] != '}';
  }

  lemma DecodeObjectStep(s: string, k: string, v: string, rest: string, more: seq<(string, string)>)
    requires |s| >= 1 && s[0] == '{' && DecodeMember(s[1..]) == Some((k, v, rest))
    requires DecodeMembersAfter(rest) == Some(more)
    ensures DecodeObject(s) == Some([(k, v)] + more)
  {
  }

  lemma PrefixLayout(p: string, m: string, r: string)
    ensures |p + m + r| >= |p| && (p + m + r)[..|p|] == p && (p + m + r)[|p|..] == m + r
  {
  }

  lemma {:induction false} MembersAfterRoundTrip(entries: seq<(string, string)>)
    ensures DecodeMembersAfter(MembersAfter(entries)) == Some(entries)
    decreases |entries|
  {
    if |entries| > 0 {
      var m := Member(entries[0].0, entries[0].1);
      var r := MembersAfter(entries[1..]);
      var s := ", " + m + r;
      PrefixLayout(", ", m, r);
      DecodeMemberOf(entries[0].0, entries[0].1, r);
      MembersAfterRoundTrip(entries[1..]);
      DecodeMembersAfterStep(s, entries[0].0, entries[0].1, r, entries[1..]);
      assert [entries[0]] + entries[1..] == entries;
    }
  }

  /** A serialised object of strings decodes back to its entries, in order. */
  lemma DumpsObjectRoundTrip(entries: seq<(string, string)>)
    ensures DecodeObject(DumpsObject(entries)) == Some(entries)
  {
    if |entries| > 0 {
      var m := Member(entries[0].0, entries[0].1);
      var r := MembersAfter(entries[1..]);
      var s := "{" + m + r;
      PrefixLayout("{", m, r);
      DecodeMemberOf(entries[0].0, entries[0].1, r);
      MembersAfterRoundTrip(entries[1..]);
      DecodeObjectStep(s, entries[0].0, entries[0].1, r, entries[1..]);
      assert [entries[0]] + entries[1..] == entries;
    }
  }
}
