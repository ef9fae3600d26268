/**
 * The reply decoder inside `sendMessage` (components/form-filler-app.tsx): the body of the read
 * loop (`Feed`) and the flush after it (`Finish`), lifted into a class over the variables the
 * handler mutates. `JSON.parse` is abstract: the decoder is given one partial function for
 * `0:` payloads and one for the field list.
 */
module StreamDecoding {
  import opened Wrappers
  import opened Text
  import opened Json

  /** The endpoint the request was posted to; the decoder only asks whether it is `/api/chat`. */
  datatype Endpoint = ChatEndpoint | AnalyzePdfEndpoint

  /** What one decoder instance is fixed to: the endpoint, and `JSON.parse` as used on a `0:`
      payload and on the field list (None where `JSON.parse` throws). */
  datatype Config = Config(
    endpoint: Endpoint,
    parseText: string -> Option<string>,
    parseFields: string -> Option<seq<Field>>)

  /** The reply so far (`assistantResponseContent`), the detected fields (`pdfFields`) and the
      content passed to the assistant message at the latest `setMessages` call, taken as the
      value of `assistantResponseContent` at that call. */
  datatype View = View(text: string, fields: seq<Field>, shown: string)

  /** Above this many characters the reply is "too long" and no longer displayed. */
  const MaxLength: nat := 10000
  const MetadataTag: string := "@@PDF_FIELDS:"
  const TextTag: string := "0:"

  /** How a trimmed line is read, in the order the source tests it. */
  datatype LineKind =
    | Blank                    // empty after trimming
    | Control                  // `f:`, `e:` or `d:`
    | ChatText(payload: string) // `0:` on the chat endpoint: a JSON literal
    | Blob                     // a `{…}` object that is not assistant text
    | Plain(text: string)      // anything else, appended as it is

  /** `startsWith("f:")`, `startsWith("e:")` or `startsWith("d:")`, checked character by character. */
  predicate HasControlPrefix(t: string) {
    |t| >= 2 && t[1] == ':' && (t[0] == 'f' || t[0] == 'e' || t[0] == 'd')
  }

  /** `startsWith("0:")`. */
  predicate IsTextLine(t: string) {
    |t| >= 2 && t[0] == '0' && t[1] == ':'
  }

  /** `startsWith("{") && endsWith("}")`. */
  predicate IsBlob(t: string) {
    |t| >= 2 && t[0] == '{' && t[|t| - 1] == '}'
  }

  function Classify(endpoint: Endpoint, t: string): LineKind {
    if t == "" then Blank
    else if HasControlPrefix(t) then Control
    else if endpoint == ChatEndpoint && IsTextLine(t) then ChatText(t[|TextTag|..])
    else if IsBlob(t) then Blob
    else Plain(t)
  }

  /** Appends to the reply; the message shows the new reply only while it is within the ceiling
      (past it the `throw` at the length check skips the display update, and its `catch` moves on). */
  function Append(v: View, s: string): View {
    var text := v.text + s;
    View(text, v.fields, if |text| > MaxLength then v.shown else text)
  }

  /** The metadata check that follows every line that was not skipped: a line starting with the
      tag replaces the field list with its parsed remainder, or leaves it when parsing fails. */
  function Metadata(config: Config, t: string, v: View): View {
    if StartsWith(t, MetadataTag) then
      match config.parseFields(t[|MetadataTag|..])
      case Some(fields) => v.(fields := fields)
      case None => v
    else v
  }

  /** The effect of one complete line on the view: the body of the `for (const line of lines)` loop. */
  function Step(config: Config, v: View, line: string): View {
    var t := Trim(line);
    match Classify(config.endpoint, t)
    case Blank => v
    case Control => v
    case Blob => v
    case ChatText(payload) =>
      Metadata(config, t, match config.parseText(payload) case Some(s) => Append(v, s) case None => v)
    case Plain(x) => Metadata(config, t, Append(v, x))
  }

  /** The view after the given complete lines, in order. */
  function Replay(config: Config, v: View, lines: seq<string>): View
    decreases |lines|
  {
    if lines == [] then v
    else Step(config, Replay(config, v, lines[..|lines| - 1]), lines[|lines| - 1])
  }

  /** The flush after the read loop: a non-blank carry is read under the chat `0:` rule or else
      appended as it is, and always displayed. No control-prefix, blob, metadata or length rule. */
  function Flush(config: Config, v: View, carry: string): View {
    var t := Trim(carry);
    if t == "" then v
    else if config.endpoint == ChatEndpoint && IsTextLine(t) then
      match config.parseText(t[|TextTag|..])
      case Some(s) => View(v.text + s, v.fields, v.text + s)
      case None => v
    else View(v.text + t, v.fields, v.text + t)
  }

  /** A fresh decoder: empty reply and an empty assistant message; the field list is whatever the
      component held when the request was sent. */
  function Initial(fields: seq<Field>): View {
    View("", fields, "")
  }

  /** What decoding the whole response text yields, however it was chunked. */
  function Decode(config: Config, fields: seq<Field>, response: string): View {
    Flush(config, Replay(config, Initial(fields), CompleteLines(response)), Carry(response))
  }

  class StreamDecoder {
    const config: Config
    ghost const initialFields: seq<Field>

    var carry: string        // accumulatedChunk
    var text: string         // assistantResponseContent
    var fields: seq<Field>   // pdfFields
    var shown: string        // the assistant message's displayed content

    ghost var fed: string           // every chunk fed so far
    ghost var lines: seq<string>    // every complete line processed so far
    ghost var finished: bool        // the flush has run

    function Current(): View
      reads this
    {
      View(text, fields, shown)
    }

    /** The framing invariant, and the view as a function of the lines processed so far. */
    ghost predicate Valid()
      reads this
    {
      && '\n' !in carry
      && NewlineFree(lines)
      && fed == Terminated(lines) + carry
      && Current() == (
           var afterLines := Replay(config, Initial(initialFields), lines);
           if finished then Flush(config, afterLines, carry) else afterLines)
    }

    constructor (config: Config, pdfFields: seq<Field>)
      ensures Valid() && !finished
      ensures this.config == config && initialFields == pdfFields
      ensures fed == "" && lines == [] && carry == ""
      ensures Current() == Initial(pdfFields)
    {
      this.config := config;
      initialFields := pdfFields;
      carry, text, fields, shown := "", "", pdfFields, "";
      fed, lines, finished := "", [], false;
    }

    /** `assistantResponseContent += s`, then the display update unless the length check throws. */
    method AppendText(s: string)
      modifies this`text, this`shown
      ensures Current() == Append(old(Current()), s)
    {
      text := text + s;
      if |text| <= MaxLength {
        shown := text;
      }
    }

    /** One complete line: trim, skip, decode by prefix, then the metadata check. */
    method DecodeLine(line: string)
      modifies this`text, this`shown, this`fields
      ensures Current() == Step(config, old(Current()), line)
    {
      var trimmed := Trim(line);
      if trimmed == "" || HasControlPrefix(trimmed) {
        return;
      }
      if config.endpoint == ChatEndpoint && IsTextLine(trimmed) {
        var parsed := config.parseText(trimmed[|TextTag|..]);
        if parsed.Some? {
          AppendText(parsed.value);
        }
      } else if IsBlob(trimmed) {
        return;
      } else {
        AppendText(trimmed);
      }
      if StartsWith(trimmed, MetadataTag) {
        var parsedFields := config.parseFields(trimmed[|MetadataTag|..]);
        if parsedFields.Some? {
          fields := parsedFields.value;
        }
      }
    }

    /** `for (const line of lines)`: every complete line of the chunk, in order. */
    method DecodeLines(complete: seq<string>)
      modifies this`text, this`shown, this`fields
      ensures Current() == Replay(config, old(Current()), complete)
    {
      ghost var start := Current();
      for i := 0 to |complete|
        invariant Current() == Replay(config, start, complete[..i])
      {
        ReplaySnoc(config, start, complete[..i + 1]);
        assert complete[..i + 1][..i] == complete[..i];
        DecodeLine(complete[i]);
      }
      assert complete[..|complete|] == complete;
    }

    /** One pass of the read loop with the decoded chunk: frame, then decode each complete line. */
    method Feed(chunk: string)
      requires Valid() && !finished
      modifies this
      ensures Valid() && !finished
      ensures fed == old(fed) + chunk
      ensures lines == old(lines) + CompleteLines(old(carry) + chunk)
      ensures carry == Carry(old(carry) + chunk)
      ensures lines == CompleteLines(fed) && carry == Carry(fed)
      ensures Current() == Replay(config, old(Current()), CompleteLines(old(carry) + chunk))
    {
      var parts := Split(carry + chunk);
      var complete := parts[..|parts| - 1];
      DecodeLines(complete);
      ReplayAppend(config, Initial(initialFields), lines, complete);
      FramingStep(lines, carry, chunk);
      lines := lines + complete;
      carry := parts[|parts| - 1];
      fed := fed + chunk;
    }

    /** The flush after the read loop has ended. */
    method Finish()
      requires Valid() && !finished
      modifies this
      ensures Valid() && finished
      ensures carry == old(carry) && fed == old(fed) && lines == old(lines)
      ensures Current() == Flush(config, old(Current()), carry)
    {
      var finalLine := Trim(carry);
      if finalLine != "" {
        if config.endpoint == ChatEndpoint && IsTextLine(finalLine) {
          var parsed := config.parseText(finalLine[|TextTag|..]);
          if parsed.Some? {
            text := text + parsed.value;
            shown := text;
          }
        } else {
          text := text + finalLine;
          shown := text;
        }
      }
      finished := true;
    }
  }

  /** The read loop and flush of `sendMessage`: a fresh decoder is fed every chunk, then the empty
      chunk the final `done` read decodes to, then flushed. The result depends on the chunks only
      through their concatenation: chunk boundaries do not matter. */
  method DecodeChunks(config: Config, pdfFields: seq<Field>, chunks: seq<string>) returns (v: View)
    ensures v == Decode(config, pdfFields, Concat(chunks))
  {
    var decoder := new StreamDecoder(config, pdfFields);
    var i := 0;
    while i < |chunks|
      invariant 0 <= i <= |chunks|
      invariant decoder.Valid() && !decoder.finished
      invariant decoder.config == config && decoder.initialFields == pdfFields
      invariant decoder.fed == Concat(chunks[..i])
    {
      assert chunks[..i + 1][..i] == chunks[..i];
      decoder.Feed(chunks[i]);
      i := i + 1;
    }
    assert chunks[..i] == chunks;
    decoder.Feed("");
    ghost var response := decoder.fed;
    assert response == Concat(chunks);
    ghost var afterLines := decoder.Current();
    assert afterLines == Replay(config, Initial(pdfFields), CompleteLines(response));
    decoder.Finish();
    v := decoder.Current();
    assert v == Flush(config, afterLines, Carry(response));
  }

  // ---------------------------------------------------------------------------------------------
  // Properties of the per-line rules

  /** Feeding a chunk keeps the framing invariant: the lines processed so far followed by the
      complete lines of carry-plus-chunk are exactly the complete lines of everything fed. */
  lemma FramingStep(lines: seq<string>, carry: string, chunk: string)
    requires NewlineFree(lines) && '\n' !in carry
    ensures NewlineFree(lines + CompleteLines(carry + chunk))
    ensures '\n' !in Carry(carry + chunk)
    ensures Terminated(lines) + carry + chunk
         == Terminated(lines + CompleteLines(carry + chunk)) + Carry(carry + chunk)
    ensures lines + CompleteLines(carry + chunk) == CompleteLines(Terminated(lines) + carry + chunk)
    ensures Carry(carry + chunk) == Carry(Terminated(lines) + carry + chunk)
  {
    var fed := Terminated(lines) + carry;
    LinesSpec(carry + chunk);
    NewlineFreeConcat(lines, CompleteLines(carry + chunk));
    SplitTerminated(lines, carry);
    SplitExtend(fed, chunk);
    assert CompleteLines(fed) == lines && Carry(fed) == carry;
    TerminatedAppend(lines, CompleteLines(carry + chunk));
    calc {
      Terminated(lines + CompleteLines(carry + chunk)) + Carry(carry + chunk);
      Terminated(lines) + (Terminated(CompleteLines(carry + chunk)) + Carry(carry + chunk));
      Terminated(lines) + (carry + chunk);
    }
  }

  lemma ReplaySnoc(config: Config, v: View, lines: seq<string>)
    requires lines != []
    ensures Replay(config, v, lines) == Step(config, Replay(config, v, lines[..|lines| - 1]), lines[|lines| - 1])
  {
  }

  lemma {:induction false} ReplayAppend(config: Config, v: View, a: seq<string>, b: seq<string>)
    ensures Replay(config, v, a + b) == Replay(config, Replay(config, v, a), b)
    decreases |b|
  {
    if b == [] {
      assert a + b == a;
    } else {
      assert (a + b)[..|a + b| - 1] == a + b[..|b| - 1];
      ReplayAppend(config, v, a, b[..|b| - 1]);
    }
  }

  /** A blank line, a control line (`f:`, `e:`, `d:`), and a `{…}` blob that is not a chat-mode
      `0:` line add no text, leave the display and never touch the field list. */
  lemma InertLine(config: Config, v: View, line: string)
    requires var t := Trim(line);
      || t == ""
      || HasControlPrefix(t)
      || (IsBlob(t) && !(config.endpoint == ChatEndpoint && IsTextLine(t)))
    ensures Step(config, v, line) == v
  {
  }

  /** On the chat endpoint a `0:` line appends its decoded payload, or nothing when the payload
      does not parse; it never touches the field list. */
  lemma ChatTextLine(config: Config, v: View, line: string)
    requires config.endpoint == ChatEndpoint && IsTextLine(Trim(line))
    ensures Step(config, v, line) ==
      match config.parseText(Trim(line)[|TextTag|..])
      case Some(s) => Append(v, s)
      case None => v
    ensures Step(config, v, line).fields == v.fields
  {
    var t := Trim(line);
    assert t[0] == '0';
  }

  /** Every other line, `0:` lines off the chat endpoint included, is appended as trimmed. The
      message shows the new reply while it is within the ceiling and keeps its old content past it,
      whatever the reply's length before. A metadata line also replaces the field list with its
      parsed remainder, and leaves the list when that does not parse. */
  lemma PlainLine(config: Config, v: View, line: string)
    requires var t := Trim(line);
      && t != ""
      && !HasControlPrefix(t)
      && !(config.endpoint == ChatEndpoint && IsTextLine(t))
      && !IsBlob(t)
    ensures var t := Trim(line); var w := Step(config, v, line);
      && w.text == v.text + t
      && w.shown == (if |v.text + t| <= MaxLength then v.text + t else v.shown)
      && w.fields == (
           if StartsWith(t, MetadataTag) && config.parseFields(t[|MetadataTag|..]).Some?
           then config.parseFields(t[|MetadataTag|..]).value
           else v.fields)
  {
  }

  /** Every metadata line is decoded, not only the first: on either endpoint it is appended to the
      reply as trimmed and, when its remainder parses, overwrites whatever field list came before. */
  lemma MetadataLine(config: Config, v: View, line: string, fields: seq<Field>)
    requires StartsWith(Trim(line), MetadataTag)
    requires config.parseFields(Trim(line)[|MetadataTag|..]) == Some(fields)
    ensures Step(config, v, line).fields == fields
    ensures Step(config, v, line).text == v.text + Trim(line)
  {
    var t := Trim(line);
    assert t[0] == '@' && t[1] == '@';
    assert !HasControlPrefix(t) && !IsTextLine(t) && !IsBlob(t);
  }

  /** Recovery: a line whose step leaves the view as it was (a blank, `f:`/`e:`/`d:` or `{…}`
      line, or a chat `0:` line whose payload does not parse; see `InertLine` and `ChatTextLine`)
      can be removed without changing how the lines after it decode. A metadata line whose
      remainder does not parse, or a line caught past the length ceiling, is not such a line:
      its text is still appended. */
  lemma SkippedLineTransparent(config: Config, v: View, before: seq<string>, bad: string, after: seq<string>)
    requires Step(config, Replay(config, v, before), bad) == Replay(config, v, before)
    ensures Replay(config, v, before + [bad] + after) == Replay(config, v, before + after)
  {
    ReplayAppend(config, v, before, [bad]);
    ReplayAppend(config, v, before + [bad], after);
    ReplayAppend(config, v, before, after);
    assert Replay(config, v, [bad]) == Step(config, v, bad) by {
      assert [bad][..0] == [];
    }
    assert Replay(config, Replay(config, v, before), [bad]) == Replay(config, v, before) by {
      assert [bad][..0] == [];
    }
  }

  /** One line only ever appends to the reply, and the display either keeps its content or shows
      the whole new reply, within the ceiling. */
  lemma StepAppends(config: Config, v: View, line: string)
    ensures var w := Step(config, v, line);
      && StartsWith(w.text, v.text)
      && (w.shown == v.shown || (w.shown == w.text && |w.text| <= MaxLength))
  {
    var t := Trim(line);
    match Classify(config.endpoint, t)
    case Blank =>
    case Control =>
    case Blob =>
    case ChatText(payload) =>
      match config.parseText(payload) {
        case Some(s) =>
          assert Step(config, v, line).text == v.text + s;
        case None =>
      }
    case Plain(x) =>
      assert Step(config, v, line).text == v.text + x;
  }

  /** Decoding only ever appends to the reply: the text before a batch of lines is a prefix of
      the text after it, past the ceiling too. */
  lemma {:induction false} ReplayExtendsText(config: Config, v: View, lines: seq<string>)
    ensures StartsWith(Replay(config, v, lines).text, v.text)
    decreases |lines|
  {
    if lines != [] {
      var w := Replay(config, v, lines[..|lines| - 1]);
      ReplayExtendsText(config, v, lines[..|lines| - 1]);
      StepAppends(config, w, lines[|lines| - 1]);
      StartsWithTrans(Step(config, w, lines[|lines| - 1]).text, w.text, v.text);
    }
  }

  /** The message displayed is always a prefix of the reply and never longer than the ceiling. */
  lemma {:induction false} ReplayKeepsDisplayBounded(config: Config, v: View, lines: seq<string>)
    requires |v.shown| <= MaxLength && StartsWith(v.text, v.shown)
    ensures var w := Replay(config, v, lines); |w.shown| <= MaxLength && StartsWith(w.text, w.shown)
    decreases |lines|
  {
    if lines != [] {
      var w := Replay(config, v, lines[..|lines| - 1]);
      ReplayKeepsDisplayBounded(config, v, lines[..|lines| - 1]);
      StepAppends(config, w, lines[|lines| - 1]);
      var u := Step(config, w, lines[|lines| - 1]);
      if u.shown == w.shown {
        StartsWithTrans(u.text, w.text, w.shown);
      }
    }
  }

  predicate IsMetadataLine(line: string) {
    StartsWith(Trim(line), MetadataTag)
  }

  /** Only metadata lines change the field list. */
  lemma {:induction false} FieldsOnlyFromMetadata(config: Config, v: View, lines: seq<string>)
    requires forall k :: 0 <= k < |lines| ==> !IsMetadataLine(lines[k])
    ensures Replay(config, v, lines).fields == v.fields
    decreases |lines|
  {
    if lines != [] {
      FieldsOnlyFromMetadata(config, v, lines[..|lines| - 1]);
    }
  }

  /** The flush does not apply the per-line rules: a control-tagged or `{…}` remainder that a
      complete line would have dropped is appended and displayed, past the ceiling too, and a
      metadata remainder is appended without touching the field list. */
  lemma FlushSkipsLineRules(config: Config, v: View, carry: string)
    requires var t := Trim(carry); t != "" && !(config.endpoint == ChatEndpoint && IsTextLine(t))
    ensures Flush(config, v, carry) == View(v.text + Trim(carry), v.fields, v.text + Trim(carry))
    ensures HasControlPrefix(Trim(carry)) ==> Step(config, v, carry) == v
  {
  }

  /** An unterminated `0:` remainder that does not parse (such as `0:"par`) adds nothing. */
  lemma FlushDropsUnparsedText(config: Config, v: View, carry: string)
    requires config.endpoint == ChatEndpoint && IsTextLine(Trim(carry))
    requires config.parseText(Trim(carry)[|TextTag|..]).None?
    ensures Flush(config, v, carry) == v
  {
  }

  /** The flush never touches the field list and only appends to the text. */
  lemma FlushKeepsFields(config: Config, v: View, carry: string)
    ensures Flush(config, v, carry).fields == v.fields
    ensures StartsWith(Flush(config, v, carry).text, v.text)
  {
  }

  /** Decoding a whole response only appends to the reply, and the message displayed at the end
      is the whole reply whenever the flush appended something. */
  lemma DecodeExtends(config: Config, fields: seq<Field>, response: string)
    ensures var w := Replay(config, Initial(fields), CompleteLines(response));
      && StartsWith(Decode(config, fields, response).text, w.text)
      && (Decode(config, fields, response).text != w.text ==>
            Decode(config, fields, response).shown == Decode(config, fields, response).text)
  {
  }

  lemma ReplayPair(config: Config, v: View, a: string, b: string)
    ensures Replay(config, v, [a, b]) == Step(config, Step(config, v, a), b)
  {
    ReplaySnoc(config, v, [a, b]);
    assert [a, b][..1] == [a];
    ReplaySnoc(config, v, [a]);
    assert [a][..0] == [];
  }

  /** A reply split mid-literal across two chunks: `0:"Hel` then `lo"` and a second `0:` line
      decode to "Hello world", once `JSON.parse` reads the two literals as their contents. */
  lemma ChatExample(config: Config, fields: seq<Field>, chunks: seq<string>)
    requires chunks == ["0:\"Hel", "lo\"\n0:\" world\"\n"]
    requires config.endpoint == ChatEndpoint
    requires config.parseText("\"Hello\"") == Some("Hello")
    requires config.parseText("\" world\"") == Some(" world")
    ensures Decode(config, fields, Concat(chunks)).text == "Hello" + " world"
    ensures Decode(config, fields, Concat(chunks)).fields == fields
  {
    ChatExampleFraming(chunks);
    ChatExampleLine("0:\"Hello\"", "\"Hello\"");
    ChatExampleLine("0:\" world\"", "\" world\"");
    TwoTextLines(config, Initial(fields), "0:\"Hello\"", "0:\" world\"", "Hello", " world");
    assert "" + "Hello" == "Hello";
  }

  lemma ChatExampleLine(line: string, payload: string)
    requires line == TextTag + payload && payload != [] && payload[|payload| - 1] == '"'
    ensures Trim(line) == line && IsTextLine(line) && line[|TextTag|..] == payload
  {
    TrimOfTrimmed(line);
  }

  /** Two `0:` lines on the chat endpoint whose payloads parse, with no carry after them. */
  lemma TwoTextLines(config: Config, v: View, first: string, second: string, x: string, y: string)
    requires config.endpoint == ChatEndpoint
    requires IsTextLine(Trim(first)) && config.parseText(Trim(first)[|TextTag|..]) == Some(x)
    requires IsTextLine(Trim(second)) && config.parseText(Trim(second)[|TextTag|..]) == Some(y)
    ensures Flush(config, Replay(config, v, [first, second]), "").text == v.text + x + y
    ensures Flush(config, Replay(config, v, [first, second]), "").fields == v.fields
  {
    ChatTextLine(config, v, first);
    ChatTextLine(config, Step(config, v, first), second);
    ReplayPair(config, v, first, second);
  }

  lemma ChatExampleFraming(chunks: seq<string>)
    requires chunks == ["0:\"Hel", "lo\"\n0:\" world\"\n"]
    ensures CompleteLines(Concat(chunks)) == ["0:\"Hello\"", "0:\" world\""]
    ensures Carry(Concat(chunks)) == ""
  {
    var first, second := "0:\"Hello\"", "0:\" world\"";
    var response := Concat(chunks);
    assert chunks[..1] == ["0:\"Hel"];
    assert chunks[..1][..0] == [];
    assert Concat(chunks[..1]) == "0:\"Hel";
    assert response == "0:\"Hel" + "lo\"\n0:\" world\"\n";
    assert response == first + "\n" + (second + "\n" + "");
    SplitAfterLine(first, second + "\n" + "");
    SplitAfterLine(second, "");
  }
}
