/**
 * The JSON text of an attribute-list value. Both the Java server and the Go
 * plugins store an ATTRLIST attribute's value as a JSON array of objects
 * with "name", "value" and "type" string members. This module gives one
 * canonical encoding of such arrays and a decoder for it, and proves that
 * decoding an encoded list gives the list back.
 */
module AttrJson {
  import opened Base

  /** One element of an attribute list: its name, value and type name. */
  datatype Entry = Entry(name: string, value: string, kind: string)

  // ---------------------------------------------------------------------
  // Encoding

  function HexDigit(n: nat): char
    requires n < 16
  {
    if n < 10 then ('0' as int + n) as char else ('A' as int + n - 10) as char
  }

  /** The escaped form of one character inside a JSON string literal. */
  function EscapeChar(c: char): (r: string)
    ensures |r| > 0
  {
    if c == '"' then "\\\""
    else if c == '\\' then "\\\\"
    else if c < ' ' then "\\u00" + [HexDigit(c as int / 16), HexDigit(c as int % 16)]
    else [c]
  }

  function Escape(s: string): string
  {
    if |s| == 0 then "" else EscapeChar(s[0]) + Escape(s[1..])
  }

  function EncodeString(s: string): string
  {
    "\"" + Escape(s) + "\""
  }

  function EncodeEntry(e: Entry): string
  {
    "{\"name\":" + EncodeString(e.name)
    + ",\"value\":" + EncodeString(e.value)
    + ",\"type\":" + EncodeString(e.kind) + "}"
  }

  /** The elements after the first, each preceded by a comma. */
  function EncodeTail(es: seq<Entry>): string
  {
    if |es| == 0 then "" else "," + EncodeEntry(es[0]) + EncodeTail(es[1..])
  }

  function EncodeList(es: seq<Entry>): string
  {
    if |es| == 0 then "[]" else "[" + EncodeEntry(es[0]) + EncodeTail(es[1..]) + "]"
  }

  // ---------------------------------------------------------------------
  // Decoding

  function HexValue(c: char): Option<nat>
  {
    if '0' <= c <= '9' then Some(c as int - '0' as int)
    else if 'A' <= c <= 'F' then Some(c as int - 'A' as int + 10)
    else if 'a' <= c <= 'f' then Some(c as int - 'a' as int + 10)
    else None
  }

  /** The character named by a \uXXXX escape, if the four digits name one. */
  function UnicodeEscape(d: string): Option<char>
    requires |d| == 4
  {
    match (HexValue(d[0]), HexValue(d[1]), HexValue(d[2]), HexValue(d[3]))
    case (Some(a), Some(b), Some(c), Some(e)) =>
      var v := ((a * 16 + b) * 16 + c) * 16 + e;
      if v < 0xD800 || 0xE000 <= v then Some(v as char) else None
    case _ => None
  }

  /**
   * Reads the rest of a string literal whose opening quote is already
   * consumed: the decoded text, and what follows the closing quote.
   */
  function ParseStringBody(s: string): (r: Option<(string, string)>)
    ensures r.Some? ==> |r.value.1| < |s|
  {
    if |s| == 0 then None
    else if s[0] == '"' then Some(("", s[1..]))
    else if s[0] == '\\' then
      if |s| < 2 then None
      else if s[1] == '"' || s[1] == '\\' then
        match ParseStringBody(s[2..])
        case Some((t, rest)) => Some(([s[1]] + t, rest))
        case None => None
      else if s[1] == 'u' && |s| >= 6 then
        match UnicodeEscape(s[2..6])
        case None => None
        case Some(c) =>
          match ParseStringBody(s[6..])
          case Some((t, rest)) => Some(([c] + t, rest))
          case None => None
      else None
    else
      match ParseStringBody(s[1..])
      case Some((t, rest)) => Some(([s[0]] + t, rest))
      case None => None
  }

  function Expect(prefix: string, s: string): (r: Option<string>)
    ensures r.Some? ==> s == prefix + r.value
  {
    if |prefix| <= |s| && s[..|prefix|] == prefix then Some(s[|prefix|..]) else None
  }

  function ParseString(s: string): (r: Option<(string, string)>)
    ensures r.Some? ==> |r.value.1| < |s|
  {
    match Expect("\"", s)
    case None => None
    case Some(body) => ParseStringBody(body)
  }

  /** A member name with its colon, then a string literal. */
  function ParseField(prefix: string, s: string): (r: Option<(string, string)>)
    ensures r.Some? ==> |r.value.1| < |s|
  {
    match Expect(prefix, s)
    case None => None
    case Some(t) => ParseString(t)
  }

  function ParseEntry(s: string): (r: Option<(Entry, string)>)
    ensures r.Some? ==> |r.value.1| < |s|
  {
    match ParseField("{\"name\":", s)
    case None => None
    case Some((name, s2)) =>
      match ParseField(",\"value\":", s2)
      case None => None
      case Some((value, s4)) =>
        match ParseField(",\"type\":", s4)
        case None => None
        case Some((kind, s6)) =>
          match Expect("}", s6)
          case None => None
          case Some(s7) => Some((Entry(name, value, kind), s7))
  }

  /** Reads ",entry" repeatedly up to and including the closing bracket. */
  function ParseTail(s: string): Option<seq<Entry>>
    decreases |s|
  {
    if |s| > 0 && s[0] == ']' then (if |s| == 1 then Some([]) else None)
    else
      match Expect(",", s)
      case None => None
      case Some(s1) =>
        match ParseEntry(s1)
        case None => None
        case Some((e, s2)) =>
          match ParseTail(s2)
          case None => None
          case Some(es) => Some([e] + es)
  }

  /** Decodes an attribute-list value; None when it is not in canonical form. */
  function DecodeList(s: string): Option<seq<Entry>>
  {
    if s == "[]" then Some([])
    else
      match Expect("[", s)
      case None => None
      case Some(s1) =>
        match ParseEntry(s1)
        case None => None
        case Some((e, s2)) =>
          match ParseTail(s2)
          case None => None
          case Some(es) => Some([e] + es)
  }

  // ---------------------------------------------------------------------
  // Round trip

  lemma HexRoundTrip(c: char)
    requires c < ' '
    ensures UnicodeEscape(['0', '0', HexDigit(c as int / 16), HexDigit(c as int % 16)]) == Some(c)
  {
  }

  /** Reading one escaped character puts it in front of what follows. */
  lemma EscapeStep(c: char, tail: string, t: string, rest: string)
    requires ParseStringBody(tail) == Some((t, rest))
    ensures ParseStringBody(EscapeChar(c) + tail) == Some(([c] + t, rest))
  {
    var input := EscapeChar(c) + tail;
    if c == '"' || c == '\\' {
      assert input[0] == '\\' && input[1] == c;
      assert input[2..] == tail;
    } else if c < ' ' {
      HexRoundTrip(c);
      assert input[0] == '\\' && input[1] == 'u';
      assert input[2..6] == ['0', '0', HexDigit(c as int / 16), HexDigit(c as int % 16)];
      assert input[6..] == tail;
    } else {
      assert input[0] == c;
      assert input[1..] == tail;
    }
  }

  lemma {:induction false} StringBodyRoundTrip(s: string, rest: string)
    ensures ParseStringBody(Escape(s) + "\"" + rest) == Some((s, rest))
    decreases |s|
  {
    if |s| == 0 {
      assert Escape(s) + "\"" + rest == "\"" + rest;
    } else {
      var tail := Escape(s[1..]) + "\"" + rest;
      StringBodyRoundTrip(s[1..], rest);
      assert Escape(s) + "\"" + rest == EscapeChar(s[0]) + tail;
      EscapeStep(s[0], tail, s[1..], rest);
      assert [s[0]] + s[1..] == s;
    }
  }

  lemma StringRoundTrip(s: string, rest: string)
    ensures ParseString(EncodeString(s) + rest) == Some((s, rest))
  {
    assert EncodeString(s) + rest == "\"" + (Escape(s) + "\"" + rest);
    StringBodyRoundTrip(s, rest);
  }

  lemma ExpectPrefix(prefix: string, t: string)
    ensures Expect(prefix, prefix + t) == Some(t)
  {
    assert (prefix + t)[..|prefix|] == prefix;
    assert (prefix + t)[|prefix|..] == t;
  }

  lemma FieldRoundTrip(prefix: string, v: string, rest: string)
    ensures ParseField(prefix, prefix + EncodeString(v) + rest) == Some((v, rest))
  {
    assert prefix + EncodeString(v) + rest == prefix + (EncodeString(v) + rest);
    ExpectPrefix(prefix, EncodeString(v) + rest);
    StringRoundTrip(v, rest);
  }

  lemma EntryRoundTrip(e: Entry, rest: string)
    ensures ParseEntry(EncodeEntry(e) + rest) == Some((e, rest))
  {
    var n := "{\"name\":";
    var v := ",\"value\":";
    var k := ",\"type\":";
    var t4 := "}" + rest;
    var t3 := k + EncodeString(e.kind) + t4;
    var t2 := v + EncodeString(e.value) + t3;
    var t1 := n + EncodeString(e.name) + t2;
    assert EncodeEntry(e) + rest == t1;
    FieldRoundTrip(n, e.name, t2);
    FieldRoundTrip(v, e.value, t3);
    FieldRoundTrip(k, e.kind, t4);
    ExpectPrefix("}", rest);
  }

  /** ParseTail on a comma, an entry and more. */
  lemma TailStep(e: Entry, after: string)
    requires ParseTail(after).Some?
    ensures ParseTail("," + (EncodeEntry(e) + after)) == Some([e] + ParseTail(after).value)
  {
    var x := "," + (EncodeEntry(e) + after);
    assert x[0] == ',';
    ExpectPrefix(",", EncodeEntry(e) + after);
    EntryRoundTrip(e, after);
  }

  lemma {:induction false} TailRoundTrip(es: seq<Entry>)
    ensures ParseTail(EncodeTail(es) + "]") == Some(es)
    decreases |es|
  {
    if |es| == 0 {
      assert EncodeTail(es) + "]" == "]";
    } else {
      var after := EncodeTail(es[1..]) + "]";
      assert EncodeTail(es) + "]" == "," + (EncodeEntry(es[0]) + after);
      TailRoundTrip(es[1..]);
      TailStep(es[0], after);
      assert [es[0]] + es[1..] == es;
    }
  }

  /** Decoding the encoding of any attribute list gives that list back. */
  lemma ListRoundTrip(es: seq<Entry>)
    ensures DecodeList(EncodeList(es)) == Some(es)
  {
    if |es| > 0 {
      var after := EncodeTail(es[1..]) + "]";
      var x := "[" + (EncodeEntry(es[0]) + after);
      assert EncodeList(es) == x;
      assert x[1] == '{';
      ExpectPrefix("[", EncodeEntry(es[0]) + after);
      EntryRoundTrip(es[0], after);
      TailRoundTrip(es[1..]);
      assert [es[0]] + es[1..] == es;
    }
  }
}
