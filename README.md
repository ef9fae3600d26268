# Form filler: reply decoding, form session and the PDF route

The application is a chat assistant that helps a user fill in a form. The user either picks a
form template, and the assistant asks its questions one by one, or uploads a PDF and asks
questions about it. This project models three parts of it in Dafny and proves properties of the
model:

- **The streaming reply decoder** (module `StreamDecoding`). This is the read loop of
  `sendMessage` in `components/form-filler-app.tsx`, lifted into one `StreamDecoder` class.
  - `Feed(chunk)` appends the decoded chunk to a carry-over buffer. It splits the buffer on
    `\n`, keeps the last piece, and decodes each complete line.
  - `Finish()` flushes the remaining piece.
  - The specification functions are `Step` (one line), `Replay` (lines in order), `Flush` and
    `Decode` (a whole response). The class's `Valid()` ties its fields to them: the lines
    processed so far, followed by the carry, are exactly the text fed, and the carry has no
    newline.
  - `DecodeChunks` runs the whole loop and equals `Decode` of the concatenated chunks, so chunk
    boundaries do not matter.
  - `JSON.parse` is abstract. The decoder is given a partial function for `0:` payloads and one
    for the field list.
  - "The display" below means the content passed to the assistant message at the latest
    `setMessages` call (`View.shown`), taken as the value of the reply at that call.
- **The form session** (module `FormSession`). These are the component's handlers
  `handleSelectForm`, `handlePdfFileChange`, `handleSubmit` and `resetChatAndState`, as methods
  of `FormFillerState`.
  - The class holds the component's state variables.
  - Each handler returns what it did: nothing, one request (a `sendMessage` call, with prompt,
    mode and file), or an exception thrown partway.
  - The form-mode invariant: whenever the form has fields, the current index names one of
    them. An answer is written at that index, the index advances while fields remain, and it
    stays on the last field.
- **The PDF route** (module `AnalyzePdf`). This is `POST` in `app/api/analyze-pdf/route.ts`.
  - It validates the upload: the pdf entry is checked before the prompt, then the agent id,
    and then the file is read.
  - It maps the PDF's form fields to `{name, type}`.
  - It asks the agent for an answer.
  - It streams one `@@PDF_FIELDS:<json>\n` line, followed by the contents of the non-empty
    `assistant_message` chunks, with no separator.
  - pdf-lib's result and the agent's stream are inputs.
  - `JSON.stringify` of the field list is written out (module `Json`). A reference parser comes
    with it, and decoding the encoding is proved to return the list.

`Text` models the JavaScript string operations the decoder relies on: `trim` with ECMAScript's
whitespace set, and `split("\n")`. `EndToEnd` joins the route and the decoder. In pdf mode, the
decoded reply begins with the metadata line verbatim. The decoded field list is the list the
route extracted when the agent's own text holds no further metadata line.

The model follows the code, including four details that a reading of the protocol might expect
otherwise:
- A reply longer than 10 000 characters does not stop decoding. The error thrown at
  components/form-filler-app.tsx:162 is caught per line, so only the display update for that
  line is skipped.
- A metadata line is also appended to the reply text. The field check at line 173 runs after
  the append, and its `continue` at line 181 comes too late to prevent it.
- Every metadata line replaces the field list, not only the first one.
- The final flush applies only the chat `0:` rule and the raw append. It has no control-prefix,
  `{…}`, metadata or length rule.

## Model

| member | source | states |
|---|---|---|
| Text.TrimStartSpec | components/form-filler-app.tsx:148 | trimming the start removes exactly a leading run of whitespace and stops at the first other character |
| Text.TrimEndSpec | components/form-filler-app.tsx:148 | trimming the end removes exactly a trailing run of whitespace and stops at the last other character |
| Text.TrimSpec | components/form-filler-app.tsx:148-149 | a trimmed line neither starts nor ends with whitespace, and it is empty (the `!trimmed` skip) exactly when the line is all whitespace |
| Text.TrimOfTrimmed | components/form-filler-app.tsx:148 | a string with no whitespace at either end is its own trim |
| Text.SplitSpec | components/form-filler-app.tsx:144 | the pieces of `split("\n")` contain no newline, and joined back with newlines they give the text |
| Text.SplitAfterLine | components/form-filler-app.tsx:144 | text that starts with a newline-free line and a newline splits into that line followed by the pieces of the rest |
| Text.SplitTerminated | components/form-filler-app.tsx:144-145 | splitting newline-terminated, newline-free lines followed by a newline-free carry gives back exactly those lines and that carry |
| Text.LinesSpec | components/form-filler-app.tsx:144-145 | the complete lines and the carry (`lines.pop()`) are newline-free and reassemble the buffer |
| Text.SplitExtend | components/form-filler-app.tsx:141-145 | the complete lines of `a + b` are those of `a` followed by those of `a`'s carry extended by `b`, and the carries agree, so chunk boundaries do not matter |
| Text.ConcatPrepend | app/api/analyze-pdf/route.ts:66-70 | the bytes of a stream whose first piece is `first` are `first` followed by the bytes of the rest |
| Json.EncodeFields | app/api/analyze-pdf/route.ts:62 | `JSON.stringify` of the field list starts with `[`, ends with `]` and has no newline, so the prefix it goes into is one line |
| Json.EscapeCharRoundTrip | app/api/analyze-pdf/route.ts:62 | parsing one escaped character, whether a short escape, a `\u00XX` escape or a plain character, gives back the character and leaves the rest |
| Json.EscapeRoundTrip | app/api/analyze-pdf/route.ts:62 | parsing an escaped string body up to its closing quote gives back the string and the text after the quote |
| Json.FieldRoundTrip | app/api/analyze-pdf/route.ts:62 | parsing one encoded `{"name":…,"type":…}` object gives back the field and the text after it |
| Json.ItemsRoundTrip | app/api/analyze-pdf/route.ts:62 | parsing a non-empty comma-separated encoded list up to `]` gives back the fields, in order |
| Json.FieldsRoundTrip | app/api/analyze-pdf/route.ts:62 | the reference parser applied to `JSON.stringify(fields)` returns exactly `fields`, in order, the empty list included |
| StreamDecoding.StreamDecoder.constructor | components/form-filler-app.tsx:133-135 | a fresh decoder has an empty buffer and reply, and it keeps the field list it starts with |
| StreamDecoding.StreamDecoder.AppendText | components/form-filler-app.tsx:161-168 | the text is appended first; the content passed to `setMessages` is the new reply, and it is passed only while its length is at most 10 000 |
| StreamDecoding.StreamDecoder.DecodeLine | components/form-filler-app.tsx:147-184 | decoding one complete line changes the reply, the display and the fields exactly as `Step` says |
| StreamDecoding.StreamDecoder.DecodeLines | components/form-filler-app.tsx:147-185 | the `for` loop over the complete lines has the effect of `Replay` of those lines, in order |
| StreamDecoding.StreamDecoder.Feed | components/form-filler-app.tsx:141-185 | after each chunk the framing invariant holds: processed lines are `CompleteLines` of all text fed, the buffer is its `Carry`, and the new lines were replayed |
| StreamDecoding.StreamDecoder.Finish | components/form-filler-app.tsx:187-206 | the flush changes the view exactly as `Flush` of the remaining buffer |
| StreamDecoding.DecodeChunks | components/form-filler-app.tsx:137-206 | the read loop, the final empty read and the flush give `Decode` of the concatenated chunks, whatever the chunk boundaries |
| StreamDecoding.FramingStep | components/form-filler-app.tsx:142-145 | feeding a chunk extends the processed lines by the complete lines of carry-plus-chunk, and those are exactly the complete lines of everything fed |
| StreamDecoding.ReplayAppend | components/form-filler-app.tsx:147 | replaying two batches one after the other equals replaying their concatenation |
| StreamDecoding.InertLine | components/form-filler-app.tsx:148-156 | a blank line, an `f:`/`e:`/`d:` line, and a `{…}` line that is not a chat `0:` line leave the reply, the display and the fields unchanged |
| StreamDecoding.ChatTextLine | components/form-filler-app.tsx:153-171 | on the chat endpoint a `0:` line appends its parsed payload, or nothing when parsing fails, and never touches the fields |
| StreamDecoding.PlainLine | components/form-filler-app.tsx:157-181 | any other line, `0:` off the chat endpoint included, is appended as trimmed; the display follows within 10 000; a metadata line replaces the fields with its parsed remainder and keeps them when that fails |
| StreamDecoding.MetadataLine | components/form-filler-app.tsx:173-181 | every metadata line with a parsable remainder sets the field list, overwriting earlier ones, and is appended to the reply too |
| StreamDecoding.SkippedLineTransparent | components/form-filler-app.tsx:169-171 | a blank, `f:`/`e:`/`d:` or `{…}` line, or a chat `0:` line whose payload does not parse, leaves the view unchanged (`InertLine`, `ChatTextLine`), and such a line can be removed without changing how later lines decode; a metadata line with an unparsable remainder, or a line caught past the 10 000 ceiling, is not such a line, since its text is still appended |
| StreamDecoding.StepAppends | components/form-filler-app.tsx:161-168 | a line only appends to the reply, and the content last passed to `setMessages` either stays as it was or is the whole reply within the ceiling |
| StreamDecoding.ReplayExtendsText | components/form-filler-app.tsx:161 | the reply before a batch of lines is a prefix of the reply after it |
| StreamDecoding.ReplayKeepsDisplayBounded | components/form-filler-app.tsx:161-168 | the content each per-line `setMessages` call passes is a prefix of the reply and at most 10 000 characters long, past the ceiling too |
| StreamDecoding.FieldsOnlyFromMetadata | components/form-filler-app.tsx:173-181 | lines that are not metadata lines never change the field list |
| StreamDecoding.FlushSkipsLineRules | components/form-filler-app.tsx:187-202 | a non-blank final piece that is not a chat `0:` piece is appended and displayed as trimmed, even when a complete line with that text would have been skipped |
| StreamDecoding.FlushDropsUnparsedText | components/form-filler-app.tsx:191-205 | an unterminated chat `0:` piece whose payload does not parse adds nothing |
| StreamDecoding.FlushKeepsFields | components/form-filler-app.tsx:187-206 | the flush never touches the field list and only appends to the reply |
| StreamDecoding.DecodeExtends | components/form-filler-app.tsx:187-202 | the decoded reply extends the reply after the complete lines, and when the flush added text the display shows the whole reply |
| StreamDecoding.ChatExample | components/form-filler-app.tsx:141-206 | a chat reply `0:"Hel` + `lo"\n0:" world"\n` split mid-literal decodes to "Hello world" with the field list untouched |
| AnalyzePdf.FieldsOf | app/api/analyze-pdf/route.ts:36-39 | one `{name, type}` per form field, in form order, with the field's name and class name |
| AnalyzePdf.ExtractedFields | app/api/analyze-pdf/route.ts:28-48 | the field list has one entry per form field when loading and listing succeed and is empty when either fails; the note is set exactly when loading succeeds |
| AnalyzePdf.FieldsLineIsOneLine | app/api/analyze-pdf/route.ts:62 | the prefix starts with `@@PDF_FIELDS:`, ends with a newline and has no other newline |
| AnalyzePdf.Forwarded | app/api/analyze-pdf/route.ts:68-72 | no forwarded piece is empty, and there are at most as many as agent chunks |
| AnalyzePdf.ForwardedAppend | app/api/analyze-pdf/route.ts:68-72 | forwarding works chunk by chunk: the pieces of a stream are those of its parts, in order |
| AnalyzePdf.ForwardedSingle | app/api/analyze-pdf/route.ts:69-71 | one chunk is forwarded, unmodified, exactly when it is an `assistant_message` with non-empty content |
| AnalyzePdf.Start | app/api/analyze-pdf/route.ts:65-75 | the `start` callback enqueues the prefix, then the forwarded chunks in order, then closes the stream |
| AnalyzePdf.NewStream | app/api/analyze-pdf/route.ts:62-76 | the streamed body is the metadata line followed by the forwarded contents |
| AnalyzePdf.Respond | app/api/analyze-pdf/route.ts:27-83 | an accepted request sends `prompt + "\n\n" + textNote` to the agent, and streams the body on success or answers 500 with the agent's error |
| AnalyzePdf.Post | app/api/analyze-pdf/route.ts:8-91 | an unreadable form gives 500; a missing pdf gives 400 "No PDF file provided." before any prompt check; a missing or empty prompt gives 400 "No prompt provided with PDF."; a missing agent id gives 500 "LETTA_AGENT_ID_SOCIAL_AGENT is not set."; a pdf entry whose `arrayBuffer()` rejects gives 500 with that message; an empty error message is replaced by "Failed to process PDF."; otherwise the response is streamed |
| AnalyzePdf.ResponseText | app/api/analyze-pdf/route.ts:62-74 | the bytes on the wire are `"@@PDF_FIELDS:" + JSON.stringify(fields) + "\n"` followed by the forwarded contents, with no separator |
| FormSession.WithAnswer | components/form-filler-app.tsx:87-89 | writing an answer sets that field's value and changes no other part of it and no other field |
| FormSession.FormFillerState.constructor | components/form-filler-app.tsx:24-31 | the session starts with no messages, fields, input, form or file, in mode "none" at index 0 |
| FormSession.FormFillerState.ResetChatAndState | components/form-filler-app.tsx:42-47 | messages, PDF fields and input are cleared; form, file, mode and index are kept |
| FormSession.FormFillerState.TypeInput | components/form-filler-app.tsx:351 | typing replaces the input |
| FormSession.FormFillerState.SelectForm | components/form-filler-app.tsx:49-63 | an unknown id changes nothing; a known one clears the chat, sets the form, clears the file, enters form mode at index 0 and asks the first question on the chat endpoint, or throws when the form has no fields |
| FormSession.FormFillerState.SelectPdf | components/form-filler-app.tsx:65-76 | choosing no file changes nothing; a file clears the chat, sets the file, clears the form, enters pdf mode and announces the file to the PDF route |
| FormSession.FormFillerState.Submit | components/form-filler-app.tsx:78-105 | blank input changes nothing; otherwise the untrimmed input becomes a user message and is cleared; in form mode the answer goes to the current field only, the index advances by one while fields remain and stays on the last, and the next-question or completion prompt goes to chat; in pdf mode the question goes to the PDF route; whenever the form has fields, the index names one of them |
| EndToEnd.ResponseLines | app/api/analyze-pdf/route.ts:62-74 | the decoder reads the route's metadata line as its first complete line, before any agent text |
| EndToEnd.MetadataFirstStep | components/form-filler-app.tsx:173-181 | in pdf mode the route's metadata line sets the field list to the encoded fields and is appended as the start of the reply |
| EndToEnd.PdfReplyDecodes | app/api/analyze-pdf/route.ts:62-74 | in pdf mode the decoded reply begins with the metadata line verbatim; the decoded fields equal the route's fields when no complete line of the agent's text is a metadata line and the field parser reads back `JSON.stringify` of that list |
| EndToEnd.CanonicalParserReadsBack | components/form-filler-app.tsx:176 | a field parser that agrees with the canonical JSON parser reads back every encoded field list, so it meets the premise of `AskAboutPdf` |
| EndToEnd.AskAboutPdf | app/api/analyze-pdf/route.ts:8-91 | a streamed response to an upload decodes to a reply beginning with the metadata line of the fields extracted from that upload; the decoded fields are exactly those fields when the agent sends no metadata line of its own, for any field parser that reads back every encoded field list |

## Left out

- React rendering, effects, scrolling, message ids from `Date.now()` and console logging are UI concerns and are not modelled.
- `sendMessage` appends an empty assistant message and updates it by id. The model keeps only the content passed at each `setMessages` call (`View.shown`).
- View.shown, StreamDecoding.ReplayKeepsDisplayBounded: the updater passed to `setMessages` at components/form-filler-app.tsx:164-168 reads the mutable `assistantResponseContent`, and React runs queued updaters at render time. Several lines decoded in one batch can therefore show the value the variable has at render, which may exceed 10 000 characters (lines of 5 000, 4 000 and 2 000 characters in one chunk show 11 000). The model takes the value at the call, so the 10 000 bound is about what each call passes, not about what is rendered.
- `sendMessage` appends "Sorry, an error occurred." when the request fails or the body is missing. That is not modelled.
- The `isLoading` flag is not modelled.
- The UI disables the input and the send button while loading or in mode "none" (components/form-filler-app.tsx:352, 358). The model lets `TypeInput` and `Submit` run in any state.
- `fetch`, `getReader` and `TextDecoder` are left out. Chunks are already-decoded strings, and UTF-8 sequences split across reads are not modelled.
- `JSON.parse` on the client is an abstract partial function. This covers its coercion of non-string values when they are appended with `+=`.
- Config.parseFields: a metadata remainder that is valid JSON but not a field list (`@@PDF_FIELDS:{}`, `@@PDF_FIELDS:null`) is stored as is by `setPdfFields` (components/form-filler-app.tsx:176-177). The model's parser yields a field list or nothing, so it cannot express that stored value.
- StreamDecoding.StreamDecoder.AppendText: `length` counts Dafny characters (code points), not UTF-16 code units. A reply with characters outside the Basic Multilingual Plane crosses the 10 000 ceiling later in the model than in the browser.
- React batches state updates and reads them from the render's closure. The model applies each handler's setters in order. A handler that throws keeps the updates made before the throw.
- The form catalogue `supportedFormsData` (lib/forms) is not part of this model. It is passed to `SelectForm` as a map.
- pdf-lib, `arrayBuffer()`, the request's `formData()` parser and the Letta `createStream` client are inputs: their results or exceptions are parameters (`Upload.pdf` holds either the `arrayBuffer()` rejection or pdf-lib's view of the bytes).
- A `pdf` entry that is a string rather than a file is not modelled.
- Agent chunks whose `content` is not a string are not modelled.
- An error raised inside the stream after the response was returned is not modelled. The agent stream is a finite list.
- The JSON text of error bodies, the response headers and the text encoding of enqueued pieces are not modelled. An error response carries its status and message.
- components/form-state-panel.tsx, components/PdfPreview.tsx, app/api/vapi-speak/route.ts and app/page.tsx are layout, rendering or remote calls, and are not modelled.
