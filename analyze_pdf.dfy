/**
 * The `POST` handler of app/api/analyze-pdf/route.ts: validates the multipart upload, lists the
 * PDF's form fields, asks the agent, and streams one metadata line followed by the agent's
 * assistant text. pdf-lib, the request parser and the agent client are inputs: what they return
 * or throw is given, not computed.
 */
module AnalyzePdf {
  import opened Wrappers
  import opened Text
  import opened Json

  /** One AcroForm field as pdf-lib reports it: `getName()` and its class name. */
  datatype PdfFormField = PdfFormField(name: string, className: string)

  /** What pdf-lib makes of the uploaded bytes: `PDFDocument.load` throws, or it succeeds and
      `getForm().getFields()` either throws (None) or lists the fields in form order. */
  datatype PdfLoad = LoadFailed | Loaded(formFields: Option<seq<PdfFormField>>)

  /** The entries of the multipart body: `pdf` and `prompt`. The pdf entry is given as what
      reading it yields: `arrayBuffer()` rejects with a message, or pdf-lib's view of its bytes. */
  datatype Upload = Upload(pdf: Option<Result<PdfLoad>>, prompt: Option<string>)

  /** One message of the agent's token stream. */
  datatype AgentChunk = AgentChunk(messageType: string, content: string)

  /** A JSON error `{ error: message }` with its status, or the streamed body as the pieces
      enqueued, in order. */
  datatype Response = JsonError(status: nat, message: string) | Streamed(pieces: seq<string>)

  const FieldsTag: string := "@@PDF_FIELDS:"
  const TextNoteWhenLoaded: string :=
    "(Note: Full text extraction is not available in this mode. Only form fields are accessible.)"
  const NoPdfError: string := "No PDF file provided."
  const NoPromptError: string := "No prompt provided with PDF."
  const NoAgentError: string := "LETTA_AGENT_ID_SOCIAL_AGENT is not set."
  const FallbackError: string := "Failed to process PDF."
  const AssistantMessage: string := "assistant_message"

  /** `fields.map(field => ({ name: field.getName(), type: field.constructor.name }))`. */
  function FieldsOf(formFields: seq<PdfFormField>): (fields: seq<Field>)
    ensures |fields| == |formFields|
    ensures forall k :: 0 <= k < |formFields| ==>
      fields[k].name == formFields[k].name && fields[k].kind == formFields[k].className
  {
    if formFields == [] then []
    else [Field(formFields[0].name, formFields[0].className)] + FieldsOf(formFields[1..])
  }

  /** The field list sent to the client: empty unless both loading and field listing succeed. */
  function ExtractFields(load: PdfLoad): seq<Field> {
    match load
    case Loaded(Some(formFields)) => FieldsOf(formFields)
    case _ => []
  }

  /** The note added to the agent message: set once loading succeeds, even if listing fields fails. */
  function TextNote(load: PdfLoad): string {
    if load.Loaded? then TextNoteWhenLoaded else ""
  }

  /** The message content sent to the agent. */
  function AgentMessage(prompt: string, load: PdfLoad): string {
    prompt + "\n\n" + TextNote(load)
  }

  /** The `catch` of the handler: status 500 with the exception's message, or the fallback text
      when the message is empty. */
  function ServerError(message: string): Response {
    JsonError(500, if message == "" then FallbackError else message)
  }

  /** `fieldInfoPrefix`: the tag, the JSON field list and a newline. */
  function FieldsLine(fields: seq<Field>): string {
    FieldsTag + EncodeFields(fields) + "\n"
  }

  /** The prefix is exactly one line: it starts with the tag, and its only newline ends it. */
  lemma FieldsLineIsOneLine(fields: seq<Field>)
    ensures var line := FieldsLine(fields);
      && StartsWith(line, FieldsTag)
      && line[|line| - 1] == '\n' && '\n' !in line[..|line| - 1]
  {
    var line := FieldsLine(fields);
    assert line[..|line| - 1] == FieldsTag + EncodeFields(fields);
  }

  predicate IsForwarded(chunk: AgentChunk) {
    chunk.messageType == AssistantMessage && chunk.content != ""
  }

  /** The contents of the assistant-message chunks with non-empty content, in stream order. */
  function Forwarded(stream: seq<AgentChunk>): (out: seq<string>)
    ensures |out| <= |stream|
    ensures forall k :: 0 <= k < |out| ==> out[k] != ""
    decreases |stream|
  {
    if stream == [] then []
    else
      var earlier := Forwarded(stream[..|stream| - 1]);
      var last := stream[|stream| - 1];
      if IsForwarded(last) then earlier + [last.content] else earlier
  }

  /** The pieces the response stream carries for the given fields and agent stream. */
  function StreamBody(fields: seq<Field>, stream: seq<AgentChunk>): seq<string> {
    [FieldsLine(fields)] + Forwarded(stream)
  }

  /** The `ReadableStream` controller: what has been enqueued, and whether it is closed. */
  class StreamController {
    var queue: seq<string>
    var closed: bool

    constructor ()
      ensures queue == [] && !closed
    {
      queue, closed := [], false;
    }

    method Enqueue(piece: string)
      requires !closed
      modifies this
      ensures queue == old(queue) + [piece] && !closed
    {
      queue := queue + [piece];
    }

    method Close()
      modifies this
      ensures queue == old(queue) && closed
    {
      closed := true;
    }
  }

  /** The stream's `start` callback: the metadata prefix, then each forwarded chunk, then close. */
  method Start(controller: StreamController, fieldInfoPrefix: string, stream: seq<AgentChunk>)
    requires !controller.closed
    modifies controller
    ensures controller.queue == old(controller.queue) + [fieldInfoPrefix] + Forwarded(stream)
    ensures controller.closed
  {
    controller.Enqueue(fieldInfoPrefix);
    for i := 0 to |stream|
      invariant !controller.closed
      invariant controller.queue == old(controller.queue) + [fieldInfoPrefix] + Forwarded(stream[..i])
    {
      assert stream[..i + 1][..i] == stream[..i];
      var chunk := stream[i];
      if chunk.messageType == AssistantMessage && chunk.content != "" {
        controller.Enqueue(chunk.content);
      }
    }
    assert stream[..|stream|] == stream;
    controller.Close();
  }

  /** The upload the handler accepts: a pdf entry and a non-empty prompt. */
  predicate HasPdfAndPrompt(upload: Upload) {
    upload.pdf.Some? && upload.prompt.Some? && upload.prompt.value != ""
  }

  /** `POST`. The pdf entry is checked before the prompt; both failures are 400s. Every exception
      (the body is not multipart, the agent id is unset, the file cannot be read, the agent call
      fails) is a 500. Otherwise
      the response streams the metadata line and the forwarded chunks. */
  method Post(
    upload: Result<Upload>,
    agentId: Option<string>,
    createStream: (string, string) -> Result<seq<AgentChunk>>)
    returns (response: Response)
    ensures upload.Thrown? ==> response == ServerError(upload.message)
    ensures upload.Ok? && upload.value.pdf.None? ==> response == JsonError(400, NoPdfError)
    ensures upload.Ok? && upload.value.pdf.Some? && !HasPdfAndPrompt(upload.value) ==>
      response == JsonError(400, NoPromptError)
    ensures upload.Ok? && HasPdfAndPrompt(upload.value) && (agentId.None? || agentId.value == "") ==>
      response == ServerError(NoAgentError)
    ensures (upload.Ok? && HasPdfAndPrompt(upload.value) && agentId.Some? && agentId.value != ""
             && upload.value.pdf.value.Thrown?) ==>
      response == ServerError(upload.value.pdf.value.message)
    ensures (upload.Ok? && HasPdfAndPrompt(upload.value) && agentId.Some? && agentId.value != ""
             && upload.value.pdf.value.Ok?) ==>
      var load := upload.value.pdf.value.value;
      match createStream(agentId.value, AgentMessage(upload.value.prompt.value, load))
      case Thrown(message) => response == ServerError(message)
      case Ok(stream) => response == Streamed(StreamBody(ExtractFields(load), stream))
    ensures response.JsonError? ==> response.status == 400 || response.status == 500
  {
    if upload.Thrown? {
      return ServerError(upload.message);
    }
    var form := upload.value;
    if form.pdf.None? {
      return JsonError(400, NoPdfError);
    }
    if form.prompt.None? || form.prompt.value == "" {
      return JsonError(400, NoPromptError);
    }
    if agentId.None? || agentId.value == "" {
      return ServerError(NoAgentError);
    }
    if form.pdf.value.Thrown? {
      return ServerError(form.pdf.value.message);
    }
    response := Respond(form.pdf.value.value, form.prompt.value, agentId.value, createStream);
  }

  /** The accepted request: list the fields, ask the agent, and stream the answer. */
  method Respond(
    load: PdfLoad,
    prompt: string,
    agentId: string,
    createStream: (string, string) -> Result<seq<AgentChunk>>)
    returns (response: Response)
    ensures match createStream(agentId, AgentMessage(prompt, load))
      case Thrown(message) => response == ServerError(message)
      case Ok(stream) => response == Streamed(StreamBody(ExtractFields(load), stream))
  {
    var fields: seq<Field> := [];
    var textNote := "";
    if load.Loaded? {
      if load.formFields.Some? {
        fields := FieldsOf(load.formFields.value);
      }
      textNote := TextNoteWhenLoaded;
    }
    assert fields == ExtractFields(load) && textNote == TextNote(load);
    var created := createStream(agentId, prompt + "\n\n" + textNote);
    assert created == createStream(agentId, AgentMessage(prompt, load));
    if created.Thrown? {
      return ServerError(created.message);
    }
    var pieces := NewStream(fields, created.value);
    response := Streamed(pieces);
  }

  /** `new ReadableStream({ start })` read to its end: the pieces its `start` callback enqueues. */
  method NewStream(fields: seq<Field>, stream: seq<AgentChunk>) returns (pieces: seq<string>)
    ensures pieces == StreamBody(fields, stream)
  {
    var fieldInfoPrefix := FieldsTag + EncodeFields(fields) + "\n";
    var controller := new StreamController();
    Start(controller, fieldInfoPrefix, stream);
    pieces := controller.queue;
  }

  // ---------------------------------------------------------------------------------------------
  // Properties

  /** The bytes on the wire: the metadata line, then the forwarded contents with no separator. */
  lemma ResponseText(fields: seq<Field>, stream: seq<AgentChunk>)
    ensures Concat(StreamBody(fields, stream))
         == FieldsTag + EncodeFields(fields) + "\n" + Concat(Forwarded(stream))
  {
    ConcatPrepend(FieldsLine(fields), Forwarded(stream));
  }

  /** Forwarding is chunk by chunk: the forwarded contents of a stream are those of its parts, in order. */
  lemma {:induction false} ForwardedAppend(a: seq<AgentChunk>, b: seq<AgentChunk>)
    ensures Forwarded(a + b) == Forwarded(a) + Forwarded(b)
    decreases |b|
  {
    if b == [] {
      assert a + b == a;
    } else {
      assert (a + b)[..|a + b| - 1] == a + b[..|b| - 1];
      ForwardedAppend(a, b[..|b| - 1]);
    }
  }

  /** A single chunk is forwarded exactly when it is an assistant message with content, and then
      unmodified. */
  lemma ForwardedSingle(chunk: AgentChunk)
    ensures Forwarded([chunk]) == if IsForwarded(chunk) then [chunk.content] else []
  {
    assert [chunk][..0] == [];
  }

  /** The field list has one entry per form field when loading and listing succeed, and is
      empty when either fails; the note is set exactly when loading succeeds. */
  lemma ExtractedFields(load: PdfLoad)
    ensures load.Loaded? && load.formFields.Some? ==> |ExtractFields(load)| == |load.formFields.value|
    ensures !(load.Loaded? && load.formFields.Some?) ==> ExtractFields(load) == []
    ensures (TextNote(load) != "") == load.Loaded?
  {
  }
}
