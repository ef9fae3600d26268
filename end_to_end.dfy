/**
 * The PDF route and the client's stream decoder together: whatever the agent says, decoding the
 * route's streamed body in pdf mode begins the reply text with the metadata line and sets the
 * field list to the fields the route extracted.
 */
module EndToEnd {
  import opened Wrappers
  import opened Text
  import opened Json
  import opened StreamDecoding
  import opened AnalyzePdf

  /** The route's first line is one complete line the decoder reads before any agent text. */
  lemma ResponseLines(fields: seq<Field>, stream: seq<AgentChunk>)
    ensures var reply := Concat(Forwarded(stream));
      && CompleteLines(Concat(StreamBody(fields, stream))) == [FieldsTag + EncodeFields(fields)] + CompleteLines(reply)
      && Carry(Concat(StreamBody(fields, stream))) == Carry(reply)
  {
    var meta := FieldsTag + EncodeFields(fields);
    var reply := Concat(Forwarded(stream));
    ResponseText(fields, stream);
    assert '\n' !in meta;
    SplitAfterLine(meta, reply);
    var parts := Split(reply);
    assert ([meta] + parts)[..|parts|] == [meta] + parts[..|parts| - 1];
  }

  /** Reading the route's metadata line in pdf mode sets the fields and appends the line. */
  lemma MetadataFirstStep(config: Config, v: View, tag: string, encoded: string, fields: seq<Field>)
    requires tag == MetadataTag
    requires encoded != [] && encoded[|encoded| - 1] == ']'
    requires config.parseFields(encoded) == Some(fields)
    ensures Replay(config, v, [tag + encoded]).fields == fields
    ensures Replay(config, v, [tag + encoded]).text == v.text + (tag + encoded)
  {
    var meta := tag + encoded;
    assert meta[0] == '@';
    assert meta[|meta| - 1] == ']';
    TrimOfTrimmed(meta);
    assert meta[|tag|..] == encoded;
    MetadataLine(config, v, meta, fields);
    ReplaySnoc(config, v, [meta]);
    assert [meta][..0] == [];
  }

  /** Decoding a response whose first complete line is `meta`: the text begins with what that
      line leaves, and later lines without metadata keep the fields it set. */
  lemma DecodeAfterFirstLine(config: Config, start: View, meta: string, rest: seq<string>, carry: string)
    ensures var first := Replay(config, start, [meta]);
      var decoded := Flush(config, Replay(config, start, [meta] + rest), carry);
      && StartsWith(decoded.text, first.text)
      && ((forall k :: 0 <= k < |rest| ==> !IsMetadataLine(rest[k])) ==> decoded.fields == first.fields)
  {
    var first := Replay(config, start, [meta]);
    ReplayAppend(config, start, [meta], rest);
    var replayed := Replay(config, first, rest);
    ReplayExtendsText(config, first, rest);
    FlushKeepsFields(config, replayed, carry);
    StartsWithTrans(Flush(config, replayed, carry).text, replayed.text, first.text);
    if forall k :: 0 <= k < |rest| ==> !IsMetadataLine(rest[k]) {
      FieldsOnlyFromMetadata(config, first, rest);
    }
  }

  /** In pdf mode, decoding the streamed body of the route yields a reply text that begins with
      the metadata line verbatim, and a field list equal to the route's field list when the
      agent's own text carries no further metadata line. The premise on the field parser is met by
      the canonical parser (`Json.FieldsRoundTrip`). */
  lemma PdfReplyDecodes(config: Config, initialFields: seq<Field>, fields: seq<Field>, stream: seq<AgentChunk>)
    requires config.endpoint == AnalyzePdfEndpoint
    requires config.parseFields(EncodeFields(fields)) == Some(fields)
    ensures var decoded := Decode(config, initialFields, Concat(StreamBody(fields, stream)));
      StartsWith(decoded.text, MetadataTag + EncodeFields(fields))
    ensures var reply := CompleteLines(Concat(Forwarded(stream)));
      (forall k :: 0 <= k < |reply| ==> !IsMetadataLine(reply[k])) ==>
        Decode(config, initialFields, Concat(StreamBody(fields, stream))).fields == fields
  {
    var encoded := EncodeFields(fields);
    var meta := MetadataTag + encoded;
    var response := Concat(StreamBody(fields, stream));
    var replyLines := CompleteLines(Concat(Forwarded(stream)));
    var start := Initial(initialFields);
    ResponseLines(fields, stream);
    assert CompleteLines(response) == [meta] + replyLines;
    assert Decode(config, initialFields, response)
        == Flush(config, Replay(config, start, [meta] + replyLines), Carry(response));
    MetadataFirstStep(config, start, MetadataTag, encoded, fields);
    assert Replay(config, start, [meta]).text == meta;
    DecodeAfterFirstLine(config, start, meta, replyLines, Carry(response));
  }

  /** The canonical field parser meets the premise of `AskAboutPdf`: it reads back every encoded
      field list. */
  lemma CanonicalParserReadsBack(config: Config)
    requires forall s :: config.parseFields(s) == ParseFields(s)
    ensures forall fs :: config.parseFields(EncodeFields(fs)) == Some(fs)
  {
    forall fs {
      FieldsRoundTrip(fs);
    }
  }

  /** One request to the PDF route followed by the client decoding the pieces it streams. When the
      route streams, the decoded text begins with the metadata line of the fields it extracted
      from the upload, and with a field parser that reads back every encoded field list (as the
      canonical one does, `Json.FieldsRoundTrip`) and an agent that sends no metadata line of its
      own the decoded field list is exactly those fields. */
  method AskAboutPdf(
    config: Config,
    initialFields: seq<Field>,
    upload: Result<Upload>,
    agentId: Option<string>,
    createStream: (string, string) -> Result<seq<AgentChunk>>)
    returns (response: Response, decoded: View)
    requires config.endpoint == AnalyzePdfEndpoint
    requires forall fs :: config.parseFields(EncodeFields(fs)) == Some(fs)
    ensures response.Streamed? ==>
      upload.Ok? && HasPdfAndPrompt(upload.value) && upload.value.pdf.value.Ok? && agentId.Some?
    ensures response.Streamed? ==>
      var fields := ExtractFields(upload.value.pdf.value.value);
      StartsWith(decoded.text, MetadataTag + EncodeFields(fields))
    ensures response.Streamed? ==>
      var fields := ExtractFields(upload.value.pdf.value.value);
      var stream := createStream(agentId.value, AgentMessage(upload.value.prompt.value, upload.value.pdf.value.value));
      && stream.Ok?
      && response.pieces == StreamBody(fields, stream.value)
      && ((forall k :: 0 <= k < |CompleteLines(Concat(Forwarded(stream.value)))| ==>
             !IsMetadataLine(CompleteLines(Concat(Forwarded(stream.value)))[k])) ==> decoded.fields == fields)
    ensures response.JsonError? ==> decoded == Initial(initialFields)
  {
    response := Post(upload, agentId, createStream);
    if response.JsonError? {
      return response, Initial(initialFields);
    }
    decoded := DecodeChunks(config, initialFields, response.pieces);
    var fields := ExtractFields(upload.value.pdf.value.value);
    var stream := createStream(agentId.value, AgentMessage(upload.value.prompt.value, upload.value.pdf.value.value));
    PdfReplyDecodes(config, initialFields, fields, stream.value);
  }
}
