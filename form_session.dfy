/**
 * The question-by-question session of components/form-filler-app.tsx: choosing a form or a PDF,
 * typing, and submitting an answer. Each handler either does nothing, sends one request (a call of
 * `sendMessage`), or throws partway; the state is the component's `useState` variables.
 */
module FormSession {
  import opened Wrappers
  import opened Text
  import opened Json
  import opened StreamDecoding

  /** `ActiveMode`: `"none"`, `"form"` or `"pdf"`. */
  datatype Mode = NoMode | FormMode | PdfMode

  /** One question of a form template, and the answer written into it. */
  datatype FormField = FormField(id: string, caption: string, kind: string, question: string, value: string)

  datatype Form = Form(id: string, name: string, fields: seq<FormField>)

  datatype Role = User | Assistant

  datatype Message = Message(role: Role, content: string)

  /** A chosen PDF file. Only its name is read here; its bytes go to the route unread. */
  datatype PdfFile = PdfFile(name: string)

  /** A call `sendMessage(prompt, mode, file)`. */
  datatype Request = Request(prompt: string, mode: Mode, file: Option<PdfFile>)

  /** What a handler did: returned early, called `sendMessage`, or threw a `TypeError` after some
      of its state updates. */
  datatype Outcome = Ignored | Sent(request: Request) | Threw

  /** The endpoint `sendMessage` posts to: the PDF route exactly for pdf mode with a file. */
  function EndpointFor(request: Request): Endpoint {
    if request.mode == PdfMode && request.file.Some? then AnalyzePdfEndpoint else ChatEndpoint
  }

  function SelectedFormPrompt(formName: string, firstQuestion: string): string {
    "I've selected the \"" + formName
      + "\". Please start by asking me the first question for this form: \"" + firstQuestion + "\""
  }

  function UploadedPdfPrompt(fileName: string): string {
    "I've uploaded a PDF named \"" + fileName
      + "\". Please acknowledge this and let me know you're ready for my questions about it."
  }

  function NextQuestionPrompt(answer: string, formName: string, nextQuestion: string): string {
    "My answer was \"" + answer + "\". For the \"" + formName
      + "\", please ask the next question: \"" + nextQuestion + "\""
  }

  function FinalAnswerPrompt(formName: string, answer: string): string {
    "My final answer for the \"" + formName + "\" was \"" + answer
      + "\". The form is complete. Please confirm and provide a summary."
  }

  function PdfQuestionPrompt(fileName: string, question: string): string {
    "Regarding the PDF \"" + fileName + "\", my question is: \"" + question + "\""
  }

  /** The fields with the answer written at `index`: that field's value is the answer, its other
      parts and every other field are as they were. */
  function WithAnswer(fields: seq<FormField>, index: nat, answer: string): (r: seq<FormField>)
    requires index < |fields|
    ensures |r| == |fields|
    ensures r[index].value == answer
    ensures r[index].(value := fields[index].value) == fields[index]
    ensures forall k :: 0 <= k < |fields| && k != index ==> r[k] == fields[k]
  {
    fields[index := fields[index].(value := answer)]
  }

  class FormFillerState {
    var messages: seq<Message>
    var pdfFields: seq<Field>
    var input: string
    var activeForm: Option<Form>
    var currentFieldIndex: nat
    var selectedPdfFile: Option<PdfFile>
    var activeMode: Mode

    /** The state the handlers keep: form mode has a form and no file, and its index names one of
        the form's fields whenever it has any; pdf mode has a file and no form. */
    ghost predicate Valid()
      reads this
    {
      && (activeMode == FormMode ==>
            && activeForm.Some? && selectedPdfFile.None?
            && (activeForm.value.fields != [] ==> currentFieldIndex < |activeForm.value.fields|))
      && (activeMode == PdfMode ==> selectedPdfFile.Some? && activeForm.None?)
    }

    /** The `useState` initial values. */
    constructor ()
      ensures Valid()
      ensures messages == [] && pdfFields == [] && input == ""
      ensures activeForm.None? && currentFieldIndex == 0 && selectedPdfFile.None? && activeMode == NoMode
    {
      messages, pdfFields, input := [], [], "";
      activeForm, currentFieldIndex, selectedPdfFile, activeMode := None, 0, None, NoMode;
    }

    /** `resetChatAndState`: clears the conversation, the PDF field list and the input box; the
        form, the file, the mode and the index are kept. */
    method ResetChatAndState()
      requires Valid()
      modifies this
      ensures Valid()
      ensures messages == [] && pdfFields == [] && input == ""
      ensures activeForm == old(activeForm) && currentFieldIndex == old(currentFieldIndex)
      ensures selectedPdfFile == old(selectedPdfFile) && activeMode == old(activeMode)
    {
      messages, pdfFields, input := [], [], "";
    }

    /** The input box's `onChange`. */
    method TypeInput(text: string)
      requires Valid()
      modifies this`input
      ensures Valid()
      ensures input == text
    {
      input := text;
    }

    /** `handleSelectForm`: an id missing from the catalog changes nothing. Otherwise the session
        restarts on a copy of the template in form mode at its first field and asks the first
        question; a template with no fields throws when reading that question, after the state
        updates. */
    method SelectForm(formId: string, catalog: map<string, Form>) returns (outcome: Outcome)
      requires Valid()
      modifies this
      ensures Valid()
      ensures formId !in catalog ==> outcome == Ignored && unchanged(this)
      ensures formId in catalog ==>
        && messages == [] && pdfFields == [] && input == ""
        && activeForm == Some(catalog[formId]) && selectedPdfFile.None?
        && activeMode == FormMode && currentFieldIndex == 0
      ensures formId in catalog ==>
        var form := catalog[formId];
        outcome == if form.fields == [] then Threw
                   else Sent(Request(SelectedFormPrompt(form.name, form.fields[0].question), FormMode, None))
      ensures outcome.Sent? ==> EndpointFor(outcome.request) == ChatEndpoint
    {
      if formId !in catalog {
        return Ignored;
      }
      var form := catalog[formId];
      ResetChatAndState();
      activeForm := Some(form);
      selectedPdfFile := None;
      activeMode := FormMode;
      currentFieldIndex := 0;
      if form.fields == [] {
        return Threw;
      }
      outcome := Sent(Request(SelectedFormPrompt(form.name, form.fields[0].question), FormMode, None));
    }

    /** `handlePdfFileChange`: with no file chosen nothing changes. Otherwise the session restarts
        on the first file in pdf mode, without a form, and announces the upload to the PDF route. */
    method SelectPdf(files: seq<PdfFile>) returns (outcome: Outcome)
      requires Valid()
      modifies this
      ensures Valid()
      ensures files == [] ==> outcome == Ignored && unchanged(this)
      ensures files != [] ==>
        && messages == [] && pdfFields == [] && input == ""
        && selectedPdfFile == Some(files[0]) && activeForm.None? && activeMode == PdfMode
        && currentFieldIndex == old(currentFieldIndex)
        && outcome == Sent(Request(UploadedPdfPrompt(files[0].name), PdfMode, Some(files[0])))
      ensures outcome.Sent? ==> EndpointFor(outcome.request) == AnalyzePdfEndpoint
    {
      if files == [] {
        return Ignored;
      }
      var file := files[0];
      ResetChatAndState();
      selectedPdfFile := Some(file);
      activeForm := None;
      activeMode := PdfMode;
      outcome := Sent(Request(UploadedPdfPrompt(file.name), PdfMode, Some(file)));
    }

    /** `handleSubmit`. A blank input (after trimming) changes nothing. Otherwise the untrimmed
        input becomes a user message and the box is cleared; then, in form mode, the answer is
        written at the current field, the index moves to the next field if there is one (and stays
        on the last one otherwise), and the next question or the completion message is sent; in pdf
        mode the question goes to the PDF route; otherwise the input is sent as it is. */
    method Submit() returns (outcome: Outcome)
      requires Valid()
      modifies this
      ensures Valid()
      ensures Trim(old(input)) == "" ==> outcome == Ignored && unchanged(this)
      ensures Trim(old(input)) != "" ==>
        && messages == old(messages) + [Message(User, old(input))] && input == ""
        && pdfFields == old(pdfFields)
        && selectedPdfFile == old(selectedPdfFile) && activeMode == old(activeMode)
      ensures Trim(old(input)) != "" && old(activeMode) == FormMode ==>
        var form := old(activeForm).value;
        var i := old(currentFieldIndex);
        if i < |form.fields| then
          && activeForm == Some(form.(fields := WithAnswer(form.fields, i, old(input))))
          && (if i + 1 < |form.fields| then
                && currentFieldIndex == i + 1
                && outcome == Sent(Request(NextQuestionPrompt(old(input), form.name, form.fields[i + 1].question), FormMode, None))
              else
                && currentFieldIndex == i
                && outcome == Sent(Request(FinalAnswerPrompt(form.name, old(input)), FormMode, None)))
        else
          activeForm == old(activeForm) && currentFieldIndex == i && outcome == Threw
      ensures Trim(old(input)) != "" && old(activeMode) == PdfMode ==>
        && activeForm == old(activeForm) && currentFieldIndex == old(currentFieldIndex)
        && outcome == Sent(Request(PdfQuestionPrompt(old(selectedPdfFile).value.name, old(input)), PdfMode, old(selectedPdfFile)))
      ensures Trim(old(input)) != "" && old(activeMode) == NoMode ==>
        && activeForm == old(activeForm) && currentFieldIndex == old(currentFieldIndex)
        && outcome == Sent(Request(old(input), NoMode, None))
      ensures outcome.Sent? ==> (EndpointFor(outcome.request) == AnalyzePdfEndpoint <==> old(activeMode) == PdfMode)
    {
      if Trim(input) == "" {
        return Ignored;
      }
      var answer := input;
      messages := messages + [Message(User, answer)];
      input := "";
      if activeMode == FormMode && activeForm.Some? {
        var form := activeForm.value;
        if currentFieldIndex >= |form.fields| {
          return Threw;
        }
        activeForm := Some(form.(fields := WithAnswer(form.fields, currentFieldIndex, answer)));
        var next := currentFieldIndex + 1;
        if next < |form.fields| {
          currentFieldIndex := next;
          outcome := Sent(Request(NextQuestionPrompt(answer, form.name, form.fields[next].question), FormMode, None));
        } else {
          outcome := Sent(Request(FinalAnswerPrompt(form.name, answer), FormMode, None));
        }
      } else if activeMode == PdfMode && selectedPdfFile.Some? {
        outcome := Sent(Request(PdfQuestionPrompt(selectedPdfFile.value.name, answer), PdfMode, selectedPdfFile));
      } else {
        outcome := Sent(Request(answer, NoMode, None));
      }
    }
  }
}
