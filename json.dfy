/**
 * The field list `{ name: string; type: string }[]` as `JSON.stringify` writes it, and a reference
 * parser for exactly that output. The client's own `JSON.parse` stays abstract elsewhere; the
 * parser here shows that the encoding loses nothing.
 */
module Json {
  import opened Wrappers
  import opened Text

  /** One detected form field: its name and its pdf-lib class name (`type` in the source). */
  datatype Field = Field(name: string, kind: string)

  /** The lower-case hexadecimal digit `JSON.stringify` writes for `n`. */
  function HexDigit(n: nat): (c: char)
    requires n < 16
    ensures ' ' < c
  {
    if n < 10 then ('0' as int + n) as char else ('a' as int + n - 10) as char
  }

  /** The value of a hexadecimal digit of either case. */
  function HexValue(c: char): Option<nat> {
    if '0' <= c <= '9' then Some(c as int - '0' as int)
    else if 'a' <= c <= 'f' then Some(c as int - 'a' as int + 10)
    else if 'A' <= c <= 'F' then Some(c as int - 'A' as int + 10)
    else None
  }

  /** No control character, so in particular no newline. */
  predicate Printable(s: string) {
    forall k :: 0 <= k < |s| ==> ' ' <= s[k]
  }

  /** How `JSON.stringify` writes one character inside a string literal: quote and backslash are
      escaped, the control characters with a short form get it, the other control characters
      become `\u00XX`, and everything else is written as it is. */
  function EscapeChar(c: char): (r: string)
    ensures r != [] && Printable(r)
  {
    if c == '"' then "\\\""
    else if c == '\\' then "\\\\"
    else if c == '\U{0008}' then "\\b"
    else if c == '\t' then "\\t"
    else if c == '\n' then "\\n"
    else if c == '\U{000C}' then "\\f"
    else if c == '\r' then "\\r"
    else if c < ' ' then "\\u00" + [HexDigit(c as int / 16), HexDigit(c as int % 16)]
    else [c]
  }

  /** The body of the string literal for `s`. It never holds a control character, so in
      particular never a newline. */
  function Escape(s: string): (r: string)
    ensures Printable(r)
  {
    if s == [] then "" else EscapeChar(s[0]) + Escape(s[1..])
  }

  function Quote(s: string): string {
    "\"" + Escape(s) + "\""
  }

  const NameKey: string := "{\"name\":"
  const TypeKey: string := ",\"type\":"

  function EncodeField(f: Field): string {
    NameKey + Quote(f.name) + TypeKey + Quote(f.kind) + "}"
  }

  function EncodeItems(fields: seq<Field>): string
    decreases |fields|
  {
    if fields == [] then ""
    else if |fields| == 1 then EncodeField(fields[0])
    else EncodeField(fields[0]) + "," + EncodeItems(fields[1..])
  }

  /** `JSON.stringify(fields)`: a bracketed, comma-separated list of `{"name":…,"type":…}`
      objects with no whitespace. It is one line, and it starts and ends with a bracket. */
  function EncodeFields(fields: seq<Field>): (r: string)
    ensures |r| >= 2 && r[0] == '[' && r[|r| - 1] == ']'
    ensures '\n' !in r
  {
    var r := "[" + EncodeItems(fields) + "]";
    assert '\n' !in r by {
      ItemsPrintable(fields);
      PrintableConcat("[", EncodeItems(fields));
      PrintableConcat("[" + EncodeItems(fields), "]");
    }
    r
  }

  lemma PrintableConcat(a: string, b: string)
    requires Printable(a) && Printable(b)
    ensures Printable(a + b)
  {
    forall k | 0 <= k < |a + b| ensures ' ' <= (a + b)[k] {
      if k >= |a| { assert (a + b)[k] == b[k - |a|]; }
    }
  }

  lemma FieldPrintable(f: Field)
    ensures Printable(EncodeField(f))
  {
    PrintableConcat(NameKey, Quote(f.name));
    PrintableConcat(NameKey + Quote(f.name), TypeKey);
    PrintableConcat(NameKey + Quote(f.name) + TypeKey, Quote(f.kind));
    PrintableConcat(NameKey + Quote(f.name) + TypeKey + Quote(f.kind), "}");
  }

  lemma {:induction false} ItemsPrintable(fields: seq<Field>)
    ensures Printable(EncodeItems(fields))
    decreases |fields|
  {
    if |fields| == 1 {
      FieldPrintable(fields[0]);
    } else if |fields| > 1 {
      FieldPrintable(fields[0]);
      ItemsPrintable(fields[1..]);
      PrintableConcat(EncodeField(fields[0]), ",");
      PrintableConcat(EncodeField(fields[0]) + ",", EncodeItems(fields[1..]));
    }
  }

  // ---------------------------------------------------------------------------------------------
  // Reference parser

  /** Reads the escape sequence after a backslash: the character it stands for and how many
      characters it occupies. */
  function Unescape(e: string): (r: Option<(char, nat)>)
    ensures r.Some? ==> 1 <= r.value.1 <= |e|
  {
    if e == [] then None
    else if e[0] == '"' then Some(('"', 1))
    else if e[0] == '\\' then Some(('\\', 1))
    else if e[0] == '/' then Some(('/', 1))
    else if e[0] == 'b' then Some(('\U{0008}', 1))
    else if e[0] == 't' then Some(('\t', 1))
    else if e[0] == 'n' then Some(('\n', 1))
    else if e[0] == 'f' then Some(('\U{000C}', 1))
    else if e[0] == 'r' then Some(('\r', 1))
    else if e[0] == 'u' && |e| >= 5 then
      match (HexValue(e[1]), HexValue(e[2]), HexValue(e[3]), HexValue(e[4]))
      case (Some(d1), Some(d2), Some(d3), Some(d4)) =>
        var v := ((d1 * 16 + d2) * 16 + d3) * 16 + d4;
        if v < 0xD800 || 0xE000 <= v < 0x11_0000 then Some((v as char, 5)) else None
      case _ => None
    else None
  }

  /** Reads the body of a string literal up to its closing quote: the decoded string and what
      follows the quote. */
  function ParseStringBody(s: string): (r: Option<(string, string)>)
    ensures r.Some? ==> |r.value.1| < |s|
    decreases |s|
  {
    if s == [] then None
    else if s[0] == '"' then Some(("", s[1..]))
    else if s[0] == '\\' then
      match Unescape(s[1..])
      case None => None
      case Some((c, n)) =>
        match ParseStringBody(s[1 + n..])
        case None => None
        case Some((body, rest)) => Some(([c] + body, rest))
    else if s[0] < ' ' then None
    else
      match ParseStringBody(s[1..])
      case None => None
      case Some((body, rest)) => Some(([s[0]] + body, rest))
  }

  function ParseString(s: string): (r: Option<(string, string)>)
    ensures r.Some? ==> |r.value.1| < |s|
  {
    if s != [] && s[0] == '"' then ParseStringBody(s[1..]) else None
  }

  function ParseField(s: string): (r: Option<(Field, string)>)
    ensures r.Some? ==> |r.value.1| < |s|
  {
    if !StartsWith(s, NameKey) then None
    else match ParseString(s[|NameKey|..])
      case None => None
      case Some((name, r1)) =>
        if !StartsWith(r1, TypeKey) then None
        else match ParseString(r1[|TypeKey|..])
          case None => None
          case Some((kind, r2)) =>
            if r2 != [] && r2[0] == '}' then Some((Field(name, kind), r2[1..])) else None
  }

  /** Reads one or more comma-separated fields and the closing bracket. */
  function ParseItems(s: string): Option<(seq<Field>, string)>
    decreases |s|
  {
    match ParseField(s)
    case None => None
    case Some((f, rest)) =>
      if rest != [] && rest[0] == ']' then Some(([f], rest[1..]))
      else if rest != [] && rest[0] == ',' then
        match ParseItems(rest[1..])
        case None => None
        case Some((fs, rest')) => Some(([f] + fs, rest'))
      else None
  }

  /** The reference decoder: a whole bracketed field list and nothing after it. */
  function ParseFields(s: string): Option<seq<Field>> {
    if s == "[]" then Some([])
    else if s != [] && s[0] == '[' then
      match ParseItems(s[1..])
      case Some((fs, rest)) => if rest == [] then Some(fs) else None
      case None => None
    else None
  }

  // ---------------------------------------------------------------------------------------------
  // Round trip

  lemma HexRoundTrip(n: nat)
    requires n < 16
    ensures HexValue(HexDigit(n)) == Some(n)
  {
  }

  /** What the parser makes of one escaped character followed by `tail`. */
  function AfterOne(c: char, tail: string): Option<(string, string)> {
    match ParseStringBody(tail)
    case None => None
    case Some((body, rest)) => Some(([c] + body, rest))
  }

  lemma EscapeCharRoundTrip(c: char, tail: string)
    ensures ParseStringBody(EscapeChar(c) + tail) == AfterOne(c, tail)
  {
    if c == '"' || c == '\\' || c == '\U{0008}' || c == '\t' || c == '\n' || c == '\U{000C}' || c == '\r' {
      ShortEscapeRoundTrip(c, tail);
    } else if c < ' ' {
      UnicodeEscapeRoundTrip(c, tail);
    } else {
      var s := EscapeChar(c) + tail;
      assert s[1..] == tail;
    }
  }

  lemma ShortEscapeRoundTrip(c: char, tail: string)
    requires c == '"' || c == '\\' || c == '\U{0008}' || c == '\t' || c == '\n' || c == '\U{000C}' || c == '\r'
    ensures ParseStringBody(EscapeChar(c) + tail) == AfterOne(c, tail)
  {
    var e := EscapeChar(c);
    var s := e + tail;
    assert |e| == 2 && e[0] == '\\';
    assert s[1..] == [e[1]] + tail;
    assert Unescape(s[1..]) == Some((c, 1));
    assert s[2..] == tail;
  }

  lemma UnicodeEscapeRoundTrip(c: char, tail: string)
    requires c < ' '
    requires !(c == '\U{0008}' || c == '\t' || c == '\n' || c == '\U{000C}' || c == '\r')
    ensures ParseStringBody(EscapeChar(c) + tail) == AfterOne(c, tail)
  {
    var hi, lo := c as int / 16, c as int % 16;
    assert hi * 16 + lo == c as int;
    HexRoundTrip(hi);
    HexRoundTrip(lo);
    var s := EscapeChar(c) + tail;
    var e := s[1..];
    assert e[..5] == "u00" + [HexDigit(hi), HexDigit(lo)];
    assert HexValue(e[1]) == Some(0) && HexValue(e[2]) == Some(0);
    assert Unescape(e) == Some((c, 5));
    assert s[6..] == tail;
  }


  lemma {:induction false} EscapeRoundTrip(x: string, rest: string)
    ensures ParseStringBody(Escape(x) + "\"" + rest) == Some((x, rest))
  {
    if x == [] {
      assert Escape(x) + "\"" + rest == "\"" + rest;
    } else {
      assert Escape(x) + "\"" + rest == EscapeChar(x[0]) + (Escape(x[1..]) + "\"" + rest);
      EscapeCharRoundTrip(x[0], Escape(x[1..]) + "\"" + rest);
      EscapeRoundTrip(x[1..], rest);
      assert [x[0]] + x[1..] == x;
    }
  }

  lemma QuoteRoundTrip(x: string, rest: string)
    ensures ParseString(Quote(x) + rest) == Some((x, rest))
  {
    assert (Quote(x) + rest)[1..] == Escape(x) + "\"" + rest;
    EscapeRoundTrip(x, rest);
  }

  lemma AfterPrefix(p: string, q: string)
    ensures StartsWith(p + q, p) && (p + q)[|p|..] == q
  {
  }

  lemma FieldRoundTrip(f: Field, rest: string)
    ensures ParseField(EncodeField(f) + rest) == Some((f, rest))
  {
    var afterKind := "}" + rest;
    var afterName := TypeKey + (Quote(f.kind) + afterKind);
    var s := NameKey + (Quote(f.name) + afterName);
    assert EncodeField(f) + rest == s;
    AfterPrefix(NameKey, Quote(f.name) + afterName);
    QuoteRoundTrip(f.name, afterName);
    AfterPrefix(TypeKey, Quote(f.kind) + afterKind);
    QuoteRoundTrip(f.kind, afterKind);
    assert afterKind[1..] == rest;
  }

  lemma ParseItemsLast(s: string, f: Field, tail: string)
    requires ParseField(s) == Some((f, tail)) && tail != [] && tail[0] == ']'
    ensures ParseItems(s) == Some(([f], tail[1..]))
  {
  }

  lemma ParseItemsCons(s: string, f: Field, tail: string)
    requires ParseField(s) == Some((f, tail)) && tail != [] && tail[0] == ','
    ensures ParseItems(s) ==
      match ParseItems(tail[1..])
      case None => None
      case Some((fs, rest)) => Some(([f] + fs, rest))
  {
  }

  lemma LastItemRoundTrip(f: Field, rest: string)
    ensures ParseItems(EncodeItems([f]) + "]" + rest) == Some(([f], rest))
  {
    var tail := "]" + rest;
    assert EncodeItems([f]) + "]" + rest == EncodeField(f) + tail;
    FieldRoundTrip(f, tail);
    ParseItemsLast(EncodeField(f) + tail, f, tail);
    assert tail[1..] == rest;
  }

  lemma EncodeItemsCons(f: Field, more: seq<Field>)
    requires more != []
    ensures EncodeItems([f] + more) == EncodeField(f) + "," + EncodeItems(more)
  {
    assert ([f] + more)[1..] == more;
  }

  lemma Regroup(a: string, b: string, c: string)
    ensures a + "," + b + "]" + c == a + ("," + (b + "]" + c))
  {
  }

  lemma ConsItemRoundTrip(f: Field, more: seq<Field>, rest: string)
    requires more != []
    requires ParseItems(EncodeItems(more) + "]" + rest) == Some((more, rest))
    ensures ParseItems(EncodeItems([f] + more) + "]" + rest) == Some(([f] + more, rest))
  {
    var after := EncodeItems(more) + "]" + rest;
    var tail := "," + after;
    EncodeItemsCons(f, more);
    Regroup(EncodeField(f), EncodeItems(more), rest);
    FieldRoundTrip(f, tail);
    assert tail[1..] == after;
    ParseItemsCons(EncodeField(f) + tail, f, tail);
  }

  lemma {:induction false} ItemsRoundTrip(fields: seq<Field>, rest: string)
    requires fields != []
    ensures ParseItems(EncodeItems(fields) + "]" + rest) == Some((fields, rest))
    decreases |fields|
  {
    if |fields| == 1 {
      LastItemRoundTrip(fields[0], rest);
      assert fields == [fields[0]];
    } else {
      ItemsRoundTrip(fields[1..], rest);
      ConsItemRoundTrip(fields[0], fields[1..], rest);
      assert [fields[0]] + fields[1..] == fields;
    }
  }

  lemma ItemsNonEmpty(fields: seq<Field>)
    requires fields != []
    ensures |EncodeItems(fields)| > 0
  {
    assert |EncodeField(fields[0])| >= |NameKey|;
  }

  /** Decoding the encoding returns the original list, in order. */
  lemma FieldsRoundTrip(fields: seq<Field>)
    ensures ParseFields(EncodeFields(fields)) == Some(fields)
  {
    var items := EncodeItems(fields);
    var s := "[" + items + "]";
    assert EncodeFields(fields) == s;
    if fields == [] {
      assert s == "[]";
    } else {
      assert s != "[]" by {
        ItemsNonEmpty(fields);
      }
      assert s[1..] == items + "]" + "";
      ItemsRoundTrip(fields, "");
    }
  }
}
