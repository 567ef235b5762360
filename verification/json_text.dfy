/**
 * JSON text as Python's `json` module writes and reads it, for the one shape
 * the system exchanges: flat objects whose values are strings.
 *
 * Writing follows `json.dumps` with its default `ensure_ascii=True`: `"` and
 * `\` are escaped, the five control characters with short escapes use them,
 * every other character outside `' '..'~'` becomes `\uXXXX` (lower-case hex),
 * and a character above U+FFFF becomes a UTF-16 surrogate pair. Reading
 * follows Python's `json.loads` in its default strict mode (no raw control
 * characters inside strings), except that a `\u` escape must not leave a
 * surrogate unpaired: Python accepts one, but a `char` cannot hold it.
 */
module JsonText {
  import opened Wrappers

  predicate IsAscii(s: string) {
    forall i :: 0 <= i < |s| ==> s[i] as int < 128
  }

  // ---------------------------------------------------------------- hex digits

  const HexDigits: string := "0123456789abcdef"

  function HexValue(c: char): (r: Option<nat>)
    ensures r.Some? ==> r.value < 16
  {
    if '0' <= c <= '9' then Some(c as int - '0' as int)
    else if 'a' <= c <= 'f' then Some(c as int - 'a' as int + 10)
    else if 'A' <= c <= 'F' then Some(c as int - 'A' as int + 10)
    else None
  }

  /** Four lower-case hex digits, as Python's `'{0:04x}'.format(n)`. */
  function Hex4(n: nat): (s: string)
    requires n < 0x10000
    ensures |s| == 4
  {
    var q1 := n / 16;
    var q2 := q1 / 16;
    [HexDigits[q2 / 16], HexDigits[q2 % 16], HexDigits[q1 % 16], HexDigits[n % 16]]
  }

  /** The value of exactly four hex digits of either case. */
  function ParseHex4(s: string): (r: Option<nat>)
    requires |s| == 4
    ensures r.Some? ==> r.value < 0x10000
  {
    var a :- HexValue(s[0]);
    var b :- HexValue(s[1]);
    var c :- HexValue(s[2]);
    var d :- HexValue(s[3]);
    Some(((a * 16 + b) * 16 + c) * 16 + d)
  }

  lemma HexDigitRoundTrip(d: nat)
    requires d < 16
    ensures HexValue(HexDigits[d]) == Some(d)
  {
  }

  lemma Hex4RoundTrip(n: nat)
    requires n < 0x10000
    ensures ParseHex4(Hex4(n)) == Some(n)
  {
    var q1 := n / 16;
    var q2 := q1 / 16;
    assert n == q1 * 16 + n % 16;
    assert q1 == q2 * 16 + q1 % 16;
    assert q2 == (q2 / 16) * 16 + q2 % 16;
    HexDigitRoundTrip(q2 / 16);
    HexDigitRoundTrip(q2 % 16);
    HexDigitRoundTrip(q1 % 16);
    HexDigitRoundTrip(n % 16);
  }

  // ------------------------------------------------------------------ writing

  /** The text `json.dumps` writes for one character of a string. */
  function EscapeChar(c: char): (e: string)
    ensures |e| > 0 && e[0] != '"'
  {
    if c == '"' then "\\\""
    else if c == '\\' then "\\\\"
    else if c == '\n' then "\\n"
    else if c == '\r' then "\\r"
    else if c == '\t' then "\\t"
    else if c as int == 8 then "\\b"
    else if c as int == 12 then "\\f"
    else if ' ' <= c <= '~' then [c]
    else if c as int < 0x10000 then UnicodeEscape(c as int)
    else SurrogateEscape(c)
  }

  /** The UTF-16 surrogate pair, as two escapes, of a character above U+FFFF. */
  function SurrogateEscape(c: char): string
    requires c as int >= 0x10000
  {
    UnicodeEscape(HighSurrogate(c)) + UnicodeEscape(LowSurrogate(c))
  }

  /** The first UTF-16 code unit of a character above U+FFFF. */
  function HighSurrogate(c: char): (u: nat)
    requires c as int >= 0x10000
    ensures 0xD800 <= u < 0xDC00
  {
    0xD800 + (c as int - 0x10000) / 0x400
  }

  /** The second UTF-16 code unit of a character above U+FFFF. */
  function LowSurrogate(c: char): (u: nat)
    requires c as int >= 0x10000
    ensures 0xDC00 <= u < 0xE000
  {
    0xDC00 + (c as int - 0x10000) % 0x400
  }

  /** The two code units of a surrogate pair combine back into the character. */
  lemma SurrogatesJoin(c: char)
    requires c as int >= 0x10000
    ensures 0x10000 + (HighSurrogate(c) - 0xD800) * 0x400 + (LowSurrogate(c) - 0xDC00) == c as int
  {
    var n := c as int - 0x10000;
    assert n == (n / 0x400) * 0x400 + n % 0x400;
  }

  /** A `\uXXXX` escape for one UTF-16 code unit. */
  function UnicodeEscape(n: nat): (e: string)
    requires n < 0x10000
    ensures |e| == 6 && e[0] == '\\' && e[1] == 'u'
  {
    "\\u" + Hex4(n)
  }

  function EscapeString(s: string): string {
    if s == [] then [] else EscapeChar(s[0]) + EscapeString(s[1..])
  }

  /** `json.dumps(s)` for a string `s`. */
  function Quote(s: string): (q: string)
    ensures |q| >= 2 && q[0] == '"'
  {
    "\"" + EscapeString(s) + "\""
  }

  /** The two separator settings in use: the `json.dumps` default and the compact one Flask's `jsonify` uses. */
  datatype Style = Spaced | Compact

  /** The white space written after each separator. */
  function Gap(style: Style): (g: string)
    ensures AllWs(g)
  {
    if style == Spaced then " " else ""
  }

  function ItemSeparator(style: Style): string {
    "," + Gap(style)
  }

  function KeySeparator(style: Style): string {
    ":" + Gap(style)
  }

  /** An object's members in insertion order, as a Python `dict` of strings iterates them. */
  type Members = seq<(string, string)>

  function EncodeMembers(members: Members, style: Style): string {
    if members == [] then ""
    else
      var head := Quote(members[0].0) + KeySeparator(style) + Quote(members[0].1);
      if |members| == 1 then head else head + ItemSeparator(style) + EncodeMembers(members[1..], style)
  }

  /** `json.dumps(d)` (or `separators=(",", ":")` for `Compact`) for a dict `d` of strings. */
  function EncodeObject(members: Members, style: Style): (t: string)
    ensures |t| >= 2 && t[0] == '{' && t[|t| - 1] == '}'
  {
    "{" + EncodeMembers(members, style) + "}"
  }

  // ------------------------------------------------------------------ reading

  predicate IsWs(c: char) {
    c == ' ' || c == '\t' || c == '\n' || c == '\r'
  }

  predicate AllWs(s: string) {
    forall i :: 0 <= i < |s| ==> IsWs(s[i])
  }

  function SkipWs(s: string): (r: string)
    ensures |r| <= |s|
    ensures r == [] || !IsWs(r[0])
  {
    if s != [] && IsWs(s[0]) then SkipWs(s[1..]) else s
  }

  /** The character a `\u` escape denotes, with a following low surrogate joined to a high one. */
  function ParseUnicodeEscape(s: string): (r: Option<(char, string)>)
    ensures r.Some? ==> |r.value.1| < |s|
  {
    if |s| < 4 then None
    else
      var u :- ParseHex4(s[..4]);
      if 0xD800 <= u < 0xDC00 then
        if |s| >= 10 && s[4] == '\\' && s[5] == 'u' then
          var v :- ParseHex4(s[6..10]);
          if 0xDC00 <= v < 0xE000 then
            Some(((0x10000 + (u - 0xD800) * 0x400 + (v - 0xDC00)) as char, s[10..]))
          else None
        else None
      else if 0xDC00 <= u < 0xE000 then None
      else Some((u as char, s[4..]))
  }

  /** The character denoted by the escape that follows a backslash. */
  function ParseEscape(s: string): (r: Option<(char, string)>)
    ensures r.Some? ==> |r.value.1| < |s|
  {
    if s == [] then None
    else if s[0] == '"' then Some(('"', s[1..]))
    else if s[0] == '\\' then Some(('\\', s[1..]))
    else if s[0] == '/' then Some(('/', s[1..]))
    else if s[0] == 'b' then Some((8 as char, s[1..]))
    else if s[0] == 'f' then Some((12 as char, s[1..]))
    else if s[0] == 'n' then Some(('\n', s[1..]))
    else if s[0] == 'r' then Some(('\r', s[1..]))
    else if s[0] == 't' then Some(('\t', s[1..]))
    else if s[0] == 'u' then ParseUnicodeEscape(s[1..])
    else None
  }

  /** One character of a string literal's body (plain or escaped) and the text after it. */
  function ParseUnit(s: string): (r: Option<(char, string)>)
    requires s != []
    ensures r.Some? ==> |r.value.1| < |s|
  {
    if s[0] == '\\' then ParseEscape(s[1..])
    else if (s[0] as int) < 0x20 then None
    else Some((s[0], s[1..]))
  }

  /** The characters of a string literal up to its closing quote, and the text after that quote. */
  function ParseStringBody(s: string): (r: Option<(string, string)>)
    ensures r.Some? ==> |r.value.1| < |s|
    decreases |s|
  {
    if s == [] then None
    else if s[0] == '"' then Some(([], s[1..]))
    else
      var step :- ParseUnit(s);
      var tail :- ParseStringBody(step.1);
      Some(([step.0] + tail.0, tail.1))
  }

  /** A string literal at the start of `s`: its value and the text after it. */
  function ParseString(s: string): (r: Option<(string, string)>)
    ensures r.Some? ==> |r.value.1| < |s|
  {
    if s != [] && s[0] == '"' then ParseStringBody(s[1..]) else None
  }

  /** One `"key": "value"` member at the start of `s`, and the text after the value. */
  function ParseMember(s: string): (r: Option<((string, string), string)>)
    ensures r.Some? ==> |r.value.1| < |s|
  {
    var key :- ParseString(s);
    var a := SkipWs(key.1);
    if a == [] || a[0] != ':' then None
    else
      var value :- ParseString(SkipWs(a[1..]));
      Some(((key.0, value.0), value.1))
  }

  /** The members of an object, from the first key to the closing brace, and the text after the brace. */
  function ParseMembers(s: string): (r: Option<(Members, string)>)
    ensures r.Some? ==> |r.value.1| < |s|
    decreases |s|
  {
    var member :- ParseMember(s);
    var b := SkipWs(member.1);
    if b != [] && b[0] == '}' then Some(([member.0], b[1..]))
    else if b != [] && b[0] == ',' then
      var more :- ParseMembers(SkipWs(b[1..]));
      Some(([member.0] + more.0, more.1))
    else None
  }

  /** An object of string members at the start of `s` (after white space), and the text after it. */
  function ParseObject(s: string): Option<(Members, string)> {
    var a := SkipWs(s);
    if a == [] || a[0] != '{' then None
    else
      var b := SkipWs(a[1..]);
      if b != [] && b[0] == '}' then Some(([], b[1..])) else ParseMembers(b)
  }

  /** `json.loads(s)` for a document that is one object of string members. */
  function ParseDocument(s: string): (r: Option<Members>)
    ensures r.Some? ==> SkipWs(s) != [] && SkipWs(s)[0] == '{'
  {
    var obj :- ParseObject(s);
    if SkipWs(obj.1) == [] then Some(obj.0) else None
  }

  /** `d.get(key)` on the dict built from `members`: a repeated key keeps its last value. */
  function Lookup(members: Members, key: string): (r: Option<string>)
    ensures r.Some? <==> exists i :: 0 <= i < |members| && members[i].0 == key
    ensures r.Some? ==> exists i :: 0 <= i < |members| && members[i] == (key, r.value) &&
                          forall j :: i < j < |members| ==> members[j].0 != key
  {
    if members == [] then None
    else
      var later := Lookup(members[1..], key);
      if later.Some? then
        ghost var i :| 0 <= i < |members[1..]| && members[1..][i] == (key, later.value) &&
                        forall j :: i < j < |members[1..]| ==> members[1..][j].0 != key;
        assert members[i + 1] == (key, later.value);
        later
      else if members[0].0 == key then
        Some(members[0].1)
      else
        assert forall i :: 1 <= i < |members| ==> members[i] == members[1..][i - 1];
        None
  }

  // --------------------------------------------------------------- round trips

  lemma SkipWsNonWs(s: string)
    requires s != [] && !IsWs(s[0])
    ensures SkipWs(s) == s
  {
  }

  lemma {:induction false} SkipWsPrefix(w: string, s: string)
    requires AllWs(w)
    ensures SkipWs(w + s) == SkipWs(s)
    decreases |w|
  {
    if w == [] {
      assert w + s == s;
    } else {
      assert (w + s)[0] == w[0];
      assert (w + s)[1..] == w[1..] + s;
      SkipWsPrefix(w[1..], s);
    }
  }

  lemma ShortEscapeRoundTrip(c: char, t: string)
    requires c == '"' || c == '\\' || c == '\n' || c == '\r' || c == '\t' || c as int == 8 || c as int == 12
    ensures ParseUnit(EscapeChar(c) + t) == Some((c, t))
  {
    var e := EscapeChar(c);
    assert |e| == 2 && e[0] == '\\';
    assert (e + t)[1..] == [e[1]] + t;
  }

  lemma PlainRoundTrip(c: char, t: string)
    requires ' ' <= c <= '~' && c != '"' && c != '\\'
    ensures ParseUnit(EscapeChar(c) + t) == Some((c, t))
  {
    assert EscapeChar(c) + t == [c] + t;
  }

  /** A `\uXXXX` escape of a code unit outside the surrogate range reads back as that character. */
  lemma UnicodeEscapeRead(n: nat, t: string)
    requires n < 0xD800 || 0xE000 <= n < 0x10000
    ensures ParseUnit(UnicodeEscape(n) + t) == Some((n as char, t))
  {
    var s := UnicodeEscape(n) + t;
    var p := Hex4(n) + t;
    assert s[1..] == "u" + p;
    assert ParseUnicodeEscape(p) == Some((n as char, t)) by {
      assert p[..4] == Hex4(n);
      assert p[4..] == t;
      Hex4RoundTrip(n);
    }
  }

  /** Two `\uXXXX` escapes holding a high and a low surrogate read back as the one character they encode. */
  lemma SurrogatePairRead(hi: nat, lo: nat, t: string)
    requires 0xD800 <= hi < 0xDC00 && 0xDC00 <= lo < 0xE000
    ensures ParseUnit(UnicodeEscape(hi) + UnicodeEscape(lo) + t) ==
            Some(((0x10000 + (hi - 0xD800) * 0x400 + (lo - 0xDC00)) as char, t))
  {
    var s := UnicodeEscape(hi) + UnicodeEscape(lo) + t;
    var p := Hex4(hi) + UnicodeEscape(lo) + t;
    assert s[1..] == "u" + p;
    assert ParseHex4(p[..4]) == Some(hi) by {
      assert p[..4] == Hex4(hi);
      Hex4RoundTrip(hi);
    }
    assert p[4] == '\\' && p[5] == 'u';
    assert ParseHex4(p[6..10]) == Some(lo) by {
      assert p[6..10] == Hex4(lo);
      Hex4RoundTrip(lo);
    }
    assert p[10..] == t;
    PairEscapeRead(p, hi, lo);
    assert ParseEscape(s[1..]) == ParseUnicodeEscape(p);
  }

  /** The parser's view of a surrogate pair, for any text whose fields read as `hi` and `lo`. */
  lemma PairEscapeRead(p: string, hi: nat, lo: nat)
    requires 0xD800 <= hi < 0xDC00 && 0xDC00 <= lo < 0xE000
    requires |p| >= 10 && p[4] == '\\' && p[5] == 'u'
    requires ParseHex4(p[..4]) == Some(hi) && ParseHex4(p[6..10]) == Some(lo)
    ensures ParseUnicodeEscape(p) == Some(((0x10000 + (hi - 0xD800) * 0x400 + (lo - 0xDC00)) as char, p[10..]))
  {
  }

  lemma EscapeCharAbove(c: char)
    requires c as int >= 0x10000
    ensures EscapeChar(c) == SurrogateEscape(c)
  {
  }

  lemma PairRoundTrip(c: char, t: string)
    requires c as int >= 0x10000
    ensures ParseUnit(EscapeChar(c) + t) == Some((c, t))
  {
    var hi, lo := HighSurrogate(c), LowSurrogate(c);
    var written := UnicodeEscape(hi) + UnicodeEscape(lo) + t;
    assert EscapeChar(c) + t == written by {
      EscapeCharAbove(c);
    }
    CharPairRead(c, t);
  }

  lemma CharPairRead(c: char, t: string)
    requires c as int >= 0x10000
    ensures ParseUnit(UnicodeEscape(HighSurrogate(c)) + UnicodeEscape(LowSurrogate(c)) + t) == Some((c, t))
  {
    var hi, lo := HighSurrogate(c), LowSurrogate(c);
    var x := 0x10000 + (hi - 0xD800) * 0x400 + (lo - 0xDC00);
    SurrogatesJoin(c);
    assert x as char == c by {
      assert x == c as int;
    }
    SurrogatePairRead(hi, lo, t);
  }

  /** Decoding the text written for one character gives back that character. */
  lemma EscapeCharRoundTrip(c: char, t: string)
    ensures ParseUnit(EscapeChar(c) + t) == Some((c, t))
  {
    if c == '"' || c == '\\' || c == '\n' || c == '\r' || c == '\t' || c as int == 8 || c as int == 12 {
      ShortEscapeRoundTrip(c, t);
    } else if ' ' <= c <= '~' {
      PlainRoundTrip(c, t);
    } else if c as int < 0x10000 {
      assert EscapeChar(c) == UnicodeEscape(c as int);
      UnicodeEscapeRead(c as int, t);
    } else {
      PairRoundTrip(c, t);
    }
  }

  /** Decoding the text written for a string, up to its closing quote, gives back the string. */
  lemma {:induction false} EscapeStringRoundTrip(s: string, rest: string)
    ensures ParseStringBody(EscapeString(s) + "\"" + rest) == Some((s, rest))
    decreases |s|
  {
    if s == [] {
      assert EscapeString(s) + "\"" + rest == "\"" + rest;
    } else {
      EscapeStringRoundTrip(s[1..], rest);
      EscapeStringStep(s, rest);
    }
  }

  /** One more character in front of a string whose escaped text reads back is read back in front of it. */
  lemma EscapeStringStep(s: string, rest: string)
    requires s != []
    requires ParseStringBody(EscapeString(s[1..]) + "\"" + rest) == Some((s[1..], rest))
    ensures ParseStringBody(EscapeString(s) + "\"" + rest) == Some((s, rest))
  {
    var t := EscapeString(s[1..]) + "\"" + rest;
    var e := EscapeChar(s[0]);
    assert EscapeString(s) + "\"" + rest == e + t by {
      assert EscapeString(s) == e + EscapeString(s[1..]);
      Regroup(e, EscapeString(s[1..]), "\"", rest);
    }
    assert ParseStringBody(e + t) == Some(([s[0]] + s[1..], rest)) by {
      EscapeCharRoundTrip(s[0], t);
      BodyStep(e, t, s[0], s[1..], rest);
    }
    HeadAndTail(s);
  }

  /** The string body parser reads one unit and goes on after it. */
  lemma BodyStep(e: string, t: string, c: char, tail: string, rest: string)
    requires e != [] && e[0] != '"'
    requires ParseUnit(e + t) == Some((c, t))
    requires ParseStringBody(t) == Some((tail, rest))
    ensures ParseStringBody(e + t) == Some(([c] + tail, rest))
  {
    assert (e + t)[0] == e[0];
  }

  /** `json.loads(json.dumps(s)) == s` for a string literal followed by any text. */
  lemma StringRoundTrip(s: string, rest: string)
    ensures ParseString(Quote(s) + rest) == Some((s, rest))
  {
    Regroup("\"", EscapeString(s), "\"", rest);
    DropHead("\"", EscapeString(s) + "\"" + rest);
    EscapeStringRoundTrip(s, rest);
  }

  /** Parsing one member once each of its two literals is known to read back. */
  lemma MemberFromLiterals(q1: string, q2: string, k: string, v: string, style: Style, after: string)
    requires q2 != [] && q2[0] == '"'
    requires ParseString(q1 + (":" + Gap(style) + q2 + after)) == Some((k, ":" + Gap(style) + q2 + after))
    requires ParseString(q2 + after) == Some((v, after))
    ensures ParseMember(q1 + KeySeparator(style) + q2 + after) == Some(((k, v), after))
  {
    var value := q2 + after;
    var afterKey := ":" + Gap(style) + q2 + after;
    assert q1 + KeySeparator(style) + q2 + after == q1 + afterKey;
    assert afterKey[0] == ':';
    assert SkipWs(afterKey) == afterKey by {
      SkipWsNonWs(afterKey);
    }
    assert SkipWs(afterKey[1..]) == value by {
      Regroup(":", Gap(style), q2, after);
      Associate(Gap(style), q2, after);
      DropHead(":", Gap(style) + value);
      SkipWsPrefix(Gap(style), value);
      SkipWsNonWs(value);
    }
  }

  lemma MemberRoundTrip(k: string, v: string, style: Style, after: string)
    ensures ParseMember(Quote(k) + KeySeparator(style) + Quote(v) + after) == Some(((k, v), after))
  {
    StringRoundTrip(k, ":" + Gap(style) + Quote(v) + after);
    StringRoundTrip(v, after);
    MemberFromLiterals(Quote(k), Quote(v), k, v, style, after);
  }

  lemma MembersLast(s: string, member: (string, string), rest: string)
    requires ParseMember(s) == Some((member, "}" + rest))
    ensures ParseMembers(s) == Some(([member], rest))
  {
    SkipWsNonWs("}" + rest);
    DropHead("}", rest);
  }

  lemma MembersNext(s: string, member: (string, string), gap: string, next: string, more: Members, rest: string)
    requires AllWs(gap)
    requires ParseMember(s) == Some((member, "," + gap + next))
    requires next != [] && next[0] == '"'
    requires ParseMembers(next) == Some((more, rest))
    ensures ParseMembers(s) == Some(([member] + more, rest))
  {
    var after := "," + gap + next;
    assert SkipWs(after) == after by {
      SkipWsNonWs(after);
    }
    assert SkipWs(after[1..]) == next by {
      Associate(",", gap, next);
      DropHead(",", gap + next);
      SkipWsPrefix(gap, next);
      SkipWsNonWs(next);
    }
  }

  /** The text after the first encoded member: the closing brace, or a comma before the next member. */
  function AfterFirstMember(members: Members, style: Style, rest: string): string
    requires members != []
  {
    if |members| == 1 then "}" + rest
    else "," + Gap(style) + (EncodeMembers(members[1..], style) + "}" + rest)
  }

  lemma FirstMemberRead(members: Members, style: Style, rest: string)
    requires members != []
    ensures ParseMember(EncodeMembers(members, style) + "}" + rest) ==
            Some((members[0], AfterFirstMember(members, style, rest)))
  {
    var k := members[0].0;
    var v := members[0].1;
    var head := Quote(k) + KeySeparator(style) + Quote(v);
    var after := AfterFirstMember(members, style, rest);
    if |members| == 1 {
      assert EncodeMembers(members, style) == head;
      Associate(head, "}", rest);
    } else {
      var tail := EncodeMembers(members[1..], style);
      assert EncodeMembers(members, style) == head + ItemSeparator(style) + tail;
      RegroupMember(head, ItemSeparator(style), tail, "}", rest);
    }
    MemberRoundTrip(k, v, style, after);
  }

  lemma HeadAndTail<T>(xs: seq<T>)
    requires xs != []
    ensures [xs[0]] + xs[1..] == xs
  {
  }

  lemma DropHead(a: string, b: string)
    requires |a| == 1
    ensures (a + b)[1..] == b
  {
  }

  lemma Associate(a: string, b: string, c: string)
    ensures a + b + c == a + (b + c)
  {
  }

  /** Re-association of an encoded member, a separator and what follows them. */
  lemma RegroupMember(head: string, sep: string, tail: string, close: string, rest: string)
    ensures head + sep + tail + close + rest == head + (sep + (tail + close + rest))
  {
  }

  /** Re-association of a piece of text followed by three more. */
  lemma Regroup(a: string, b: string, c: string, d: string)
    ensures a + b + c + d == a + (b + c + d)
  {
  }

  lemma {:induction false} MembersRoundTrip(members: Members, style: Style, rest: string)
    requires members != []
    ensures ParseMembers(EncodeMembers(members, style) + "}" + rest) == Some((members, rest))
    decreases |members|
  {
    if |members| == 1 {
      SingleMemberRead(members, style, rest);
    } else {
      MembersRoundTrip(members[1..], style, rest);
      MoreMembersRead(members, style, rest);
    }
  }

  lemma SingleMemberRead(members: Members, style: Style, rest: string)
    requires |members| == 1
    ensures ParseMembers(EncodeMembers(members, style) + "}" + rest) == Some((members, rest))
  {
    var s := EncodeMembers(members, style) + "}" + rest;
    FirstMemberRead(members, style, rest);
    MembersLast(s, members[0], rest);
    assert [members[0]] == members;
  }

  /** One more member in front of a list that reads back is read back in front of it. */
  lemma MoreMembersRead(members: Members, style: Style, rest: string)
    requires |members| > 1
    requires ParseMembers(EncodeMembers(members[1..], style) + "}" + rest) == Some((members[1..], rest))
    ensures ParseMembers(EncodeMembers(members, style) + "}" + rest) == Some((members, rest))
  {
    var s := EncodeMembers(members, style) + "}" + rest;
    var next := EncodeMembers(members[1..], style) + "}" + rest;
    assert ParseMember(s) == Some((members[0], "," + Gap(style) + next)) by {
      FirstMemberRead(members, style, rest);
    }
    MembersStartWithQuote(members[1..], style, rest);
    MembersNext(s, members[0], Gap(style), next, members[1..], rest);
    HeadAndTail(members);
  }

  lemma MembersStartWithQuote(members: Members, style: Style, rest: string)
    requires members != []
    ensures (EncodeMembers(members, style) + "}" + rest)[0] == '"'
  {
    var k := members[0].0;
    assert EncodeMembers(members, style)[..|Quote(k)|] == Quote(k) by {
      var head := Quote(k) + KeySeparator(style) + Quote(members[0].1);
      assert head[..|Quote(k)|] == Quote(k);
    }
  }

  lemma EmptyObjectRead(rest: string)
    ensures ParseObject("{}" + rest) == Some(([], rest))
  {
    var s := "{" + ("}" + rest);
    assert "{}" + rest == s by {
      Associate("{", "}", rest);
    }
    SkipWsNonWs(s);
    DropHead("{", "}" + rest);
    SkipWsNonWs("}" + rest);
    DropHead("}", rest);
  }

  lemma ObjectFromMembers(body: string, members: Members, rest: string)
    requires body != [] && body[0] == '"'
    requires ParseMembers(body) == Some((members, rest))
    ensures ParseObject("{" + body) == Some((members, rest))
  {
    var s := "{" + body;
    SkipWsNonWs(s);
    DropHead("{", body);
    SkipWsNonWs(body);
  }

  lemma ObjectRead(members: Members, style: Style, rest: string)
    ensures ParseObject(EncodeObject(members, style) + rest) == Some((members, rest))
  {
    if members == [] {
      assert EncodeObject(members, style) + rest == "{}" + rest;
      EmptyObjectRead(rest);
    } else {
      var body := EncodeMembers(members, style) + "}" + rest;
      assert EncodeObject(members, style) + rest == "{" + body;
      MembersStartWithQuote(members, style, rest);
      MembersRoundTrip(members, style, rest);
      ObjectFromMembers(body, members, rest);
    }
  }

  /**
   * Reading back what `json.dumps` wrote for an object of string members
   * (followed by any white space) gives back exactly those members.
   */
  lemma DocumentRoundTrip(members: Members, style: Style, trailing: string)
    requires AllWs(trailing)
    ensures ParseDocument(EncodeObject(members, style) + trailing) == Some(members)
  {
    ObjectRead(members, style, trailing);
    SkipWsPrefix(trailing, "");
    assert trailing + "" == trailing;
  }

  // ------------------------------------------------------------- ASCII output

  lemma AsciiConcat(a: string, b: string)
    requires IsAscii(a) && IsAscii(b)
    ensures IsAscii(a + b)
  {
    assert forall i :: |a| <= i < |a + b| ==> (a + b)[i] == b[i - |a|];
  }

  lemma Hex4Ascii(n: nat)
    requires n < 0x10000
    ensures IsAscii(Hex4(n))
  {
    assert forall i :: 0 <= i < 16 ==> HexDigits[i] as int < 128;
  }

  lemma UnicodeEscapeAscii(n: nat)
    requires n < 0x10000
    ensures IsAscii(UnicodeEscape(n))
  {
    Hex4Ascii(n);
    AsciiConcat("\\u", Hex4(n));
  }

  lemma SurrogateEscapeAscii(c: char)
    requires c as int >= 0x10000
    ensures IsAscii(SurrogateEscape(c))
  {
    UnicodeEscapeAscii(HighSurrogate(c));
    UnicodeEscapeAscii(LowSurrogate(c));
    AsciiConcat(UnicodeEscape(HighSurrogate(c)), UnicodeEscape(LowSurrogate(c)));
  }

  lemma EscapeCharAscii(c: char)
    ensures IsAscii(EscapeChar(c))
  {
    if c == '"' || c == '\\' || c == '\n' || c == '\r' || c == '\t' || c as int == 8 || c as int == 12 {
    } else if ' ' <= c <= '~' {
    } else if c as int < 0x10000 {
      UnicodeEscapeAscii(c as int);
    } else {
      SurrogateEscapeAscii(c);
    }
  }

  lemma {:induction false} EscapeStringAscii(s: string)
    ensures IsAscii(EscapeString(s))
    decreases |s|
  {
    if s != [] {
      EscapeCharAscii(s[0]);
      EscapeStringAscii(s[1..]);
      AsciiConcat(EscapeChar(s[0]), EscapeString(s[1..]));
    }
  }

  lemma QuoteAscii(s: string)
    ensures IsAscii(Quote(s))
  {
    EscapeStringAscii(s);
    AsciiConcat("\"", EscapeString(s));
    AsciiConcat("\"" + EscapeString(s), "\"");
  }

  lemma {:induction false} EncodeMembersAscii(members: Members, style: Style)
    ensures IsAscii(EncodeMembers(members, style))
    decreases |members|
  {
    if members != [] {
      var k := members[0].0;
      var v := members[0].1;
      QuoteAscii(k);
      QuoteAscii(v);
      AsciiConcat(Quote(k), KeySeparator(style));
      AsciiConcat(Quote(k) + KeySeparator(style), Quote(v));
      var head := Quote(k) + KeySeparator(style) + Quote(v);
      if |members| > 1 {
        EncodeMembersAscii(members[1..], style);
        AsciiConcat(head, ItemSeparator(style));
        AsciiConcat(head + ItemSeparator(style), EncodeMembers(members[1..], style));
      }
    }
  }

  /** What `json.dumps` writes for an object is plain ASCII, whatever the strings hold. */
  lemma EncodeObjectAscii(members: Members, style: Style)
    ensures IsAscii(EncodeObject(members, style))
  {
    EncodeMembersAscii(members, style);
    AsciiConcat("{", EncodeMembers(members, style));
    AsciiConcat("{" + EncodeMembers(members, style), "}");
  }
}
