/**
  The edit page (`frontend/src/features/forms/Form.tsx`): its seven local
  question kinds and their mapping to and from the fourteen wire kinds,
  loading a stored form for editing, the page's question handlers, the
  type change of a question card, and the sequence of requests a save
  sends.
*/
module FormEditor {
  import opened Wrappers
  import opened Text
  import opened Seqs
  import opened FormTypes
  import opened Editor
  import FormController
  import Store

  /** The kinds the edit page offers. */
  datatype LocalType = LShortText | LLongText | LMultipleChoice | LCheckboxes | LDropdown | LDate | LTime

  /** `mapLocalTypeToApi`: each local kind is the wire kind of the same name. */
  function ToApi(t: LocalType): QuestionType {
    match t
    case LShortText => ShortText
    case LLongText => LongText
    case LMultipleChoice => MultipleChoice
    case LCheckboxes => Checkboxes
    case LDropdown => Dropdown
    case LDate => Date
    case LTime => Time
  }

  /** The wire kinds that have a local counterpart. */
  predicate IsLocalKind(q: QuestionType) {
    q == ShortText || q == LongText || q == MultipleChoice || q == Checkboxes || q == Dropdown || q == Date || q == Time
  }

  /** `mapApiTypeToLocal`: six kinds map to themselves; every other string, known kind or not, becomes short text. */
  function MapApiTypeToLocal(apiType: string): (t: LocalType)
    ensures t != LShortText ==> Tag(ToApi(t)) == apiType
  {
    if apiType == "long_text" then LLongText
    else if apiType == "multiple_choice" then LMultipleChoice
    else if apiType == "checkboxes" then LCheckboxes
    else if apiType == "dropdown" then LDropdown
    else if apiType == "date" then LDate
    else if apiType == "time" then LTime
    else LShortText
  }

  /**
    Sending a local kind and loading it back gives the same kind; a wire
    kind survives loading exactly when it has a local counterpart, and the
    others (ratings, files, signatures, contact fields) become short text.
  */
  lemma KindMappingRoundTrip(t: LocalType, q: QuestionType)
    ensures MapApiTypeToLocal(Tag(ToApi(t))) == t
    ensures ToApi(MapApiTypeToLocal(Tag(q))) == q <==> IsLocalKind(q)
    ensures !IsLocalKind(q) ==> MapApiTypeToLocal(Tag(q)) == LShortText
  {
    LocalKindSurvives(t);
    WireKindLoads(q);
  }

  lemma LocalKindSurvives(t: LocalType)
    ensures MapApiTypeToLocal(Tag(ToApi(t))) == t
  {
  }

  lemma WireKindLoads(q: QuestionType)
    ensures MapApiTypeToLocal(Tag(q)) == if IsLocalKind(q) then LocalOf(q) else LShortText
  {
  }

  /** The local kind of a wire kind that has one. */
  function LocalOf(q: QuestionType): LocalType
    requires IsLocalKind(q)
  {
    match q
    case LongText => LLongText
    case MultipleChoice => LMultipleChoice
    case Checkboxes => LCheckboxes
    case Dropdown => LDropdown
    case Date => LDate
    case Time => LTime
    case _ => LShortText
  }

  predicate IsChoiceLocal(t: LocalType) {
    t == LMultipleChoice || t == LCheckboxes || t == LDropdown
  }

  type LocalQuestion = EditorQuestion<LocalType>

  /** A stored question as the edit page holds it. */
  function LoadQuestion(q: Question): (l: LocalQuestion)
    ensures l.id == q.id && l.text == q.question_text && l.required == q.is_required
    ensures l.kind == MapApiTypeToLocal(q.question_type)
    ensures |l.options| == |q.options|
    ensures forall k :: 0 <= k < |q.options| ==> l.options[k] == EditorOption(q.options[k].id, q.options[k].option_text)
  {
    EditorQuestion(q.id, q.question_text, MapApiTypeToLocal(q.question_type),
                   seq(|q.options|, k requires 0 <= k < |q.options| => EditorOption(q.options[k].id, q.options[k].option_text)),
                   q.is_required)
  }

  /** The edit page's state. */
  datatype EditPage = EditPage(title: string, description: string, isPublic: bool, editor: EditorState<LocalType>)

  /**
    `loadForm`: the page takes the stored title, the description (an
    empty or missing one shows the placeholder text), the visibility, and
    the questions in order; the first question becomes active.
  */
  function LoadForm(data: FormWithQuestions): (p: EditPage)
    ensures p.title == data.form.title && p.isPublic == data.form.is_public
    ensures p.description == if Filled(data.form.description) then data.form.description.value else "Form description"
    ensures |p.editor.questions| == |data.questions|
    ensures forall k :: 0 <= k < |data.questions| ==> p.editor.questions[k] == LoadQuestion(data.questions[k])
    ensures p.editor.active.Some? <==> |data.questions| > 0 && data.questions[0].id != ""
    ensures p.editor.active.Some? ==> p.editor.active.value == data.questions[0].id
  {
    var qs := seq(|data.questions|, k requires 0 <= k < |data.questions| => LoadQuestion(data.questions[k]));
    EditPage(data.form.title,
             if Filled(data.form.description) then data.form.description.value else "Form description",
             data.form.is_public,
             EditorState(qs, if |qs| > 0 && qs[0].id != "" then Some(qs[0].id) else None))
  }

  /** The sample question's text after its first letter "W". */
  const SampleRest := "hat is your primary reason for visiting today?"

  /** The sample question the create page opens with: required, multiple choice, three options. */
  function SampleQuestion(questionId: Id, optionIds: seq<Id>): LocalQuestion
    requires |optionIds| == 3
  {
    EditorQuestion(questionId, "W" + SampleRest, LMultipleChoice,
                   [EditorOption(optionIds[0], "General Inquiry"), EditorOption(optionIds[1], "Product Support"),
                    EditorOption(optionIds[2], "Feedback")],
                   true)
  }

  /**
    The page in create mode: the default title and description, private,
    and the sample question, which is active.
  */
  function CreatePage(questionId: Id, optionIds: seq<Id>): (p: EditPage)
    requires |optionIds| == 3
    ensures p.title == "Untitled Form" && p.description == "Form description" && !p.isPublic
    ensures |p.editor.questions| == 1 && p.editor.active == Some(questionId)
    ensures p.editor.questions[0].id == questionId && p.editor.questions[0].kind == LMultipleChoice
    ensures p.editor.questions[0].required
    ensures OptionTexts(p.editor.questions[0].options) == ["General Inquiry", "Product Support", "Feedback"]
  {
    EditPage("Untitled Form", "Form description", false, EditorState([SampleQuestion(questionId, optionIds)], Some(questionId)))
  }

  /**
    Saving the create page untouched creates the form, sets its visibility,
    and adds the sample question as a required multiple-choice question
    with its three option texts.
  */
  lemma {:induction false} UntouchedCreateSave(questionId: Id, optionIds: seq<Id>)
    requires |optionIds| == 3
    ensures var p := CreatePage(questionId, optionIds);
      SavePlan(Create, p.title, p.description, p.isPublic, p.editor.questions)
      == Some([CreateFormCall("Untitled Form", "Form description"),
               UpdateFormCall(NewForm, "Untitled Form", "Form description", false),
               AddQuestionCall(NewForm, AddQuestionRequest("W" + SampleRest,
                                                           "multiple_choice", true,
                                                           Some(["General Inquiry", "Product Support", "Feedback"])))])
  {
    var p := CreatePage(questionId, optionIds);
    var q := SampleQuestion(questionId, optionIds);
    assert p.editor.questions == [q];
    assert p.title[0] == 'U' && !IsSpace(p.title[0]);
    assert q.text == "W" + SampleRest;
    assert q.text[0] == 'W' && !IsSpace(q.text[0]);
    assert Tag(ToApi(q.kind)) == "multiple_choice";
    FilterAll(p.editor.questions, NotBlank);
    assert QuestionRequest(q).options == Some(["General Inquiry", "Product Support", "Feedback"]);
    assert OptionTexts(q.options) == ["General Inquiry", "Product Support", "Feedback"];
    assert QuestionRequest(q) == AddQuestionRequest("W" + SampleRest, "multiple_choice", true,
                                                    Some(["General Inquiry", "Product Support", "Feedback"]));
    assert AddCalls(NewForm, p.editor.questions) == [AddQuestionCall(NewForm, QuestionRequest(q))];
    assert SavePlan(Create, p.title, p.description, p.isPublic, p.editor.questions).value
        == [CreateFormCall(p.title, p.description), UpdateFormCall(NewForm, p.title, p.description, p.isPublic)]
           + [AddQuestionCall(NewForm, QuestionRequest(q))]
        == [CreateFormCall(p.title, p.description), UpdateFormCall(NewForm, p.title, p.description, p.isPublic),
            AddQuestionCall(NewForm, QuestionRequest(q))];
  }

  /** The question `addQuestionHandler` creates: short text, empty, one option "Option 1", not required. */
  function NewQuestion(id: Id, optionId: Id): (q: LocalQuestion)
    ensures q.kind == LShortText && q.text == "" && !q.required
    ensures q.options == [EditorOption(optionId, OptionLabel(1))]
  {
    assert NatToString(1) == "1";
    assert OptionLabel(1) == "Option " + "1" == "Option 1";
    EditorQuestion(id, "", LShortText, [EditorOption(optionId, "Option 1")], false)
  }

  /** `addQuestionHandler`: the new question goes last and becomes active. */
  function AddQuestionHandler(st: EditorState<LocalType>, id: Id, optionId: Id): (r: EditorState<LocalType>)
    ensures r.questions == st.questions + [NewQuestion(id, optionId)] && r.active == Some(id)
  {
    AppendQuestion(st, NewQuestion(id, optionId))
  }

  /** `handleDeleteQuestion` (confirmation granted): the question goes, but the active id is left as it was. */
  function HandleDeleteQuestion(st: EditorState<LocalType>, id: Id): (r: EditorState<LocalType>)
    ensures r.questions == DeleteById(st.questions, id) && r.active == st.active
  {
    st.(questions := DeleteById(st.questions, id))
  }

  /** Deleting the active question leaves the page pointing at a question that no longer exists. */
  lemma DeletingActiveLeavesItDangling(st: EditorState<LocalType>, id: Id)
    requires st.active == Some(id)
    ensures var r := HandleDeleteQuestion(st, id);
      r.active == Some(id) && FreshId(r.questions, id)
  {
  }

  /** The type selector of a question card: a choice kind keeps the options, any other kind empties them. */
  function ChangeType(q: LocalQuestion, t: LocalType): (r: LocalQuestion)
    ensures r.kind == t && r.id == q.id && r.text == q.text && r.required == q.required
    ensures IsChoiceLocal(t) ==> r.options == q.options
    ensures !IsChoiceLocal(t) ==> r.options == []
  {
    q.(kind := t, options := if IsChoiceLocal(t) then q.options else [])
  }

  /** Switching away from a choice kind and back loses the options: the change is not undoable. */
  lemma TypeChangeLosesOptions(q: LocalQuestion, away: LocalType)
    requires !IsChoiceLocal(away) && IsChoiceLocal(q.kind) && |q.options| > 0
    ensures ChangeType(ChangeType(q, away), q.kind).options == []
    ensures ChangeType(ChangeType(q, away), q.kind) != q
  {
  }

  // ---------------------------------------------------------------- handleSaveForm

  /** The form the requests address: the one the save creates, or the one being edited. */
  datatype FormRef = NewForm | ExistingForm(id: Id)

  datatype Mode = Create | Edit(formId: Id)

  /** The body of an add-question request; `None` options are left out of the JSON. */
  datatype AddQuestionRequest = AddQuestionRequest(
    question_text: string,
    question_type: string,
    is_required: bool,
    options: Option<seq<string>>)

  datatype ApiCall =
    | CreateFormCall(title: string, description: string)
    | UpdateFormCall(target: FormRef, title: string, description: string, is_public: bool)
    | AddQuestionCall(target: FormRef, body: AddQuestionRequest)

  /** The request for one question: its text, wire kind and flag, and its option texts for a choice kind with options. */
  function QuestionRequest(q: LocalQuestion): (r: AddQuestionRequest)
    ensures r.question_text == q.text && r.question_type == Tag(ToApi(q.kind)) && r.is_required == q.required
    ensures r.options.Some? <==> IsChoiceLocal(q.kind) && |q.options| > 0
    ensures r.options.Some? ==> r.options.value == OptionTexts(q.options)
  {
    AddQuestionRequest(q.text, Tag(ToApi(q.kind)), q.required,
                       if IsChoiceLocal(q.kind) && |q.options| > 0 then Some(OptionTexts(q.options)) else None)
  }

  function NotBlank(q: LocalQuestion): bool {
    !IsBlank(q.text)
  }

  /** One add request per question whose text is not blank, in page order. */
  function AddCalls(target: FormRef, qs: seq<LocalQuestion>): (calls: seq<ApiCall>)
    ensures |calls| == |Filter(qs, NotBlank)|
    ensures forall k :: 0 <= k < |calls| ==> calls[k] == AddQuestionCall(target, QuestionRequest(Filter(qs, NotBlank)[k]))
  {
    Map(Filter(qs, NotBlank), (q: LocalQuestion) => AddQuestionCall(target, QuestionRequest(q)))
  }

  /**
    The requests `handleSaveForm` sends, in order, or `None` when a blank
    title stops it before any request. A new form is created and then
    updated with the visibility; an edited form is updated. Then every
    non-blank question is added. Nothing updates or deletes a question.
  */
  function SavePlan(mode: Mode, title: string, description: string, isPublic: bool, qs: seq<LocalQuestion>)
    : (plan: Option<seq<ApiCall>>)
    ensures plan.None? <==> IsBlank(title)
    ensures plan.Some? && mode.Create? ==> (
      && |plan.value| >= 2
      && plan.value[0] == CreateFormCall(title, description)
      && plan.value[1] == UpdateFormCall(NewForm, title, description, isPublic)
      && plan.value[2..] == AddCalls(NewForm, qs))
    ensures plan.Some? && mode.Edit? ==> (
      && |plan.value| >= 1
      && plan.value[0] == UpdateFormCall(ExistingForm(mode.formId), title, description, isPublic)
      && plan.value[1..] == AddCalls(ExistingForm(mode.formId), qs))
  {
    if IsBlank(title) then None
    else
      match mode
      case Create =>
        Some([CreateFormCall(title, description), UpdateFormCall(NewForm, title, description, isPublic)]
             + AddCalls(NewForm, qs))
      case Edit(formId) =>
        Some([UpdateFormCall(ExistingForm(formId), title, description, isPublic)] + AddCalls(ExistingForm(formId), qs))
  }

  /**
    `handleSaveSettings`: the same blank-title refusal as a save; an edited
    form gets the update request, a form not yet created gets no request.
  */
  function SettingsPlan(mode: Mode, title: string, description: string, isPublic: bool): (plan: Option<seq<ApiCall>>)
    ensures plan.None? <==> IsBlank(title)
    ensures plan.Some? && mode.Create? ==> plan.value == []
    ensures plan.Some? && mode.Edit? ==> plan.value == [UpdateFormCall(ExistingForm(mode.formId), title, description, isPublic)]
  {
    if IsBlank(title) then None
    else if mode.Create? then Some([])
    else Some([UpdateFormCall(ExistingForm(mode.formId), title, description, isPublic)])
  }

  /** A title of Unicode spaces only, such as one ideographic space, is blank for `trim()`: nothing is sent. */
  lemma SpaceOnlyTitleRefused(mode: Mode, description: string, isPublic: bool, qs: seq<LocalQuestion>)
    ensures SavePlan(mode, "\U{3000}", description, isPublic, qs).None?
    ensures SettingsPlan(mode, "\U{3000}", description, isPublic).None?
  {
    assert IsSpace("\U{3000}"[0]);
  }

  /** On an edited form, saving the settings sends exactly the first request of a full save, which then adds the questions. */
  lemma SettingsArePrefixOfSave(formId: Id, title: string, description: string, isPublic: bool, qs: seq<LocalQuestion>)
    ensures var settings := SettingsPlan(Edit(formId), title, description, isPublic);
      var save := SavePlan(Edit(formId), title, description, isPublic, qs);
      && settings.Some? == save.Some?
      && (save.Some? ==> save.value == settings.value + AddCalls(ExistingForm(formId), qs))
  {
  }

  /** The add-question body the server reads from a request. */
  function ServerBody(r: AddQuestionRequest): FormController.AddQuestionBody {
    FormController.AddQuestionBody(Some(r.question_text), Some(r.question_type), Some(r.is_required), r.options)
  }

  /**
    Every question a save sends passes the server's validation, so its
    outcome depends only on ownership; the server stores the page's kind,
    which loads back as the same kind, and the option texts in order.
  */
  lemma {:induction false} SavedQuestionAccepted(q: LocalQuestion, db: Store.Db, user: Id, formId: Id, newId: Id,
                                                 optionIds: seq<Id>)
    requires NotBlank(q)
    requires |optionIds| == |FormController.OptionTexts(ServerBody(QuestionRequest(q)))|
    ensures var h := FormController.AddQuestion(db, user, formId, ServerBody(QuestionRequest(q)), newId, optionIds);
      && (h.reply.Success? <==> Store.Owns(db, user, formId))
      && (h.reply.Success? ==> MapApiTypeToLocal(h.reply.value.question_type) == q.kind)
      && (IsChoiceLocal(q.kind) ==> FormController.OptionTexts(ServerBody(QuestionRequest(q))) == OptionTexts(q.options))
  {
    assert IsBlank("");
    KindMappingRoundTrip(q.kind, ToApi(q.kind));
    if IsChoiceLocal(q.kind) && |q.options| == 0 {
      assert OptionTexts(q.options) == [];
    }
  }

  /**
    Saving a loaded form without edits sends one add request per stored
    question with a non-blank text: the edit page re-adds what the server
    already holds.
  */
  lemma {:induction false} EditSaveReAddsLoadedQuestions(data: FormWithQuestions, formId: Id)
    requires forall k :: 0 <= k < |data.questions| ==> !IsBlank(data.questions[k].question_text)
    requires !IsBlank(data.form.title)
    ensures var p := LoadForm(data);
      var plan := SavePlan(Edit(formId), p.title, p.description, p.isPublic, p.editor.questions);
      && plan.Some?
      && |plan.value| == 1 + |data.questions|
      && forall k :: 0 <= k < |data.questions| ==>
           plan.value[1 + k] == AddQuestionCall(ExistingForm(formId), QuestionRequest(LoadQuestion(data.questions[k])))
  {
    var p := LoadForm(data);
    var qs := p.editor.questions;
    assert forall k :: 0 <= k < |qs| ==> NotBlank(qs[k]);
    FilterAll(qs, NotBlank);
    var plan := SavePlan(Edit(formId), p.title, p.description, p.isPublic, qs);
    forall k | 0 <= k < |data.questions|
      ensures plan.value[1 + k] == AddQuestionCall(ExistingForm(formId), QuestionRequest(LoadQuestion(data.questions[k])))
    {
      assert plan.value[1..][k] == plan.value[1 + k];
    }
  }
}
