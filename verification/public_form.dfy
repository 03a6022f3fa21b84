/**
  The public answering page (`frontend/src/features/forms/PublicForm.tsx`):
  the public-only gate when a form is loaded, the answer store the inputs
  write to, the checkbox toggle, the required-answer check and the
  type-dispatched encoding of every question into one wire `Answer`.
*/
module PublicForm {
  import opened Wrappers
  import opened Text
  import opened Seqs
  import opened FormTypes
  import RatingInput

  /**
    A value in the answer store, as the inputs put it there: nothing yet,
    an explicit `null` (a removed file or a cleared signature), a string,
    a number, a list of option ids, or a picked file together with its
    base64 content (the result of `fileToBase64`, taken as given).
  */
  datatype RawValue =
    | Absent
    | Null
    | Str(s: string)
    | Number(n: int)
    | Ids(ids: seq<Id>)
    | Upload(file: FileInfo, base64: string)

  type Store = map<Id, RawValue>

  function Lookup(store: Store, id: Id): RawValue {
    if id in store then store[id] else Absent
  }

  /** JavaScript truthiness of a stored value: `""`, `0`, `null` and `undefined` are falsy; every array is truthy. */
  predicate Truthy(v: RawValue) {
    match v
    case Absent => false
    case Null => false
    case Str(s) => s != ""
    case Number(n) => n != 0
    case Ids(_) => true
    case Upload(_, _) => true
  }

  /**
    The values the input rendered for a question of this wire type can
    store: text inputs, radio groups and selects store strings, checkboxes
    store id lists, a rating input stores one of its offered values, the
    file input a file or `null`, the signature pad a data URL or `null`.
    A question of an unknown type gets no input, so its value stays absent.
  */
  predicate Fits(questionType: string, v: RawValue) {
    if questionType in {"short_text", "long_text", "email", "phone", "url", "date", "time",
                        "multiple_choice", "dropdown"} then v.Absent? || v.Str?
    else if questionType == "checkboxes" then v.Absent? || v.Ids?
    else if questionType == "rating_5" then v.Absent? || (v.Number? && v.n in RatingInput.Offered(RatingInput.Five))
    else if questionType == "rating_10" then v.Absent? || (v.Number? && v.n in RatingInput.Offered(RatingInput.Ten))
    else if questionType == "file_upload" then v.Absent? || v.Null? || v.Upload?
    else if questionType == "signature" then v.Absent? || v.Null? || v.Str?
    else v.Absent?
  }

  /** Every question's stored value is one its input can produce. */
  predicate StoreFits(questions: seq<Question>, store: Store) {
    forall i :: 0 <= i < |questions| ==> Fits(questions[i].question_type, Lookup(store, questions[i].id))
  }

  /** `loadForm`: the fetched form is installed only when it is public; a failed fetch installs nothing. */
  function LoadForm(fetched: Option<FormWithQuestions>): (shown: Option<FormWithQuestions>)
    ensures shown.Some? <==> fetched.Some? && fetched.value.form.is_public
    ensures shown.Some? ==> shown == fetched
  {
    match fetched
    case Some(f) => if f.form.is_public then fetched else None
    case None => None
  }

  /** `handleAnswerChange`: one entry set, every other entry kept. */
  function SetAnswer(store: Store, id: Id, v: RawValue): (r: Store)
    ensures Lookup(r, id) == v
    ensures forall k :: k != id ==> Lookup(r, k) == Lookup(store, k)
  {
    store[id := v]
  }

  /** The option ids currently ticked: the stored list, or none when the entry is falsy. */
  function TickedIds(v: RawValue): seq<Id>
    requires v.Ids? || !Truthy(v)
  {
    if v.Ids? then v.ids else []
  }

  /**
    `handleCheckboxChange`: checking appends the option id to the
    question's list, unchecking removes every occurrence of it; no other
    entry changes.
  */
  function ToggleCheckbox(store: Store, questionId: Id, optionId: Id, checked: bool): (r: Store)
    requires Lookup(store, questionId).Ids? || !Truthy(Lookup(store, questionId))
    ensures forall k :: k != questionId ==> Lookup(r, k) == Lookup(store, k)
    ensures Lookup(r, questionId).Ids?
    ensures checked ==> Lookup(r, questionId).ids == TickedIds(Lookup(store, questionId)) + [optionId]
    ensures !checked ==> optionId !in Lookup(r, questionId).ids
    ensures !checked ==> multiset(Lookup(r, questionId).ids) <= multiset(TickedIds(Lookup(store, questionId)))
  {
    var current := TickedIds(Lookup(store, questionId));
    if checked then SetAnswer(store, questionId, Ids(current + [optionId]))
    else
      var kept := Filter(current, (id: Id) => id != optionId);
      FilterSubMultiset(current, (id: Id) => id != optionId);
      SetAnswer(store, questionId, Ids(kept))
  }

  /** Unchecking keeps every other ticked option exactly as often as before. */
  lemma UncheckKeepsOthers(store: Store, questionId: Id, optionId: Id, other: Id)
    requires Lookup(store, questionId).Ids? || !Truthy(Lookup(store, questionId))
    requires other != optionId
    ensures multiset(Lookup(ToggleCheckbox(store, questionId, optionId, false), questionId).ids)[other]
      == multiset(TickedIds(Lookup(store, questionId)))[other]
  {
    FilterCount(TickedIds(Lookup(store, questionId)), (id: Id) => id != optionId, other);
  }

  /** The inputs' writes keep every stored value one its input can produce. */
  lemma ToggleKeepsFit(questions: seq<Question>, store: Store, questionId: Id, optionId: Id, checked: bool)
    requires StoreFits(questions, store)
    requires forall i :: 0 <= i < |questions| && questions[i].id == questionId ==> questions[i].question_type == "checkboxes"
    requires Lookup(store, questionId).Ids? || !Truthy(Lookup(store, questionId))
    ensures StoreFits(questions, ToggleCheckbox(store, questionId, optionId, checked))
  {
  }

  /** Unchecking every option leaves an empty list, which is truthy, so a required checkbox question still counts as answered. */
  lemma EmptyTickListIsAnswered(store: Store, questionId: Id, optionId: Id)
    requires Lookup(store, questionId) == Ids([optionId])
    ensures Lookup(ToggleCheckbox(store, questionId, optionId, false), questionId) == Ids([])
    ensures Truthy(Lookup(ToggleCheckbox(store, questionId, optionId, false), questionId))
  {
    var r := Lookup(ToggleCheckbox(store, questionId, optionId, false), questionId);
    assert |r.ids| <= 1;
  }

  /** The required questions whose stored value is falsy. */
  function MissingRequired(questions: seq<Question>, store: Store): (missing: seq<Question>)
    ensures forall k :: 0 <= k < |missing| ==>
      (missing[k] in questions && missing[k].is_required && !Truthy(Lookup(store, missing[k].id)))
    ensures forall k :: 0 <= k < |questions| ==>
      (questions[k].is_required && !Truthy(Lookup(store, questions[k].id)) ==> questions[k] in missing)
  {
    Filter(questions, (q: Question) => q.is_required && !Truthy(Lookup(store, q.id)))
  }

  /** Some required question has a falsy stored value. */
  predicate HasMissingRequired(questions: seq<Question>, store: Store) {
    exists i :: 0 <= i < |questions| && questions[i].is_required && !Truthy(Lookup(store, questions[i].id))
  }

  /** `answer.split(",")[1]`: the field after the first comma, undefined when there is no comma. */
  function SignatureContent(dataUrl: string): (content: Option<string>)
    ensures content.Some? <==> ',' in dataUrl
  {
    var parts := Split(dataUrl, ',');
    if |parts| >= 2 then Some(parts[1])
    else
      assert Join(parts, ',') == parts[0];
      None
  }

  predicate IsRatingType(questionType: string) {
    questionType == "rating_5" || questionType == "rating_10"
  }

  predicate IsSingleChoiceType(questionType: string) {
    questionType == "multiple_choice" || questionType == "dropdown"
  }

  /** Exactly one of the three payload fields is set. */
  predicate OnePayload(a: Answer) {
    (if a.answer_text.Some? then 1 else 0)
    + (if a.selected_options.Some? then 1 else 0)
    + (if a.file_data.Some? then 1 else 0) == 1
  }

  /** The branch of the encoding ladder a question and its value take, tried top to bottom. */
  datatype Branch = FileBranch | SignatureBranch | RatingBranch | SingleChoiceBranch | CheckboxBranch | TextBranch

  function BranchOf(questionType: string, v: RawValue): Branch {
    if questionType == "file_upload" && v.Upload? then FileBranch
    else if questionType == "signature" && Truthy(v) then SignatureBranch
    else if IsRatingType(questionType) && Truthy(v) then RatingBranch
    else if IsSingleChoiceType(questionType) && Truthy(v) then SingleChoiceBranch
    else if questionType == "checkboxes" && Truthy(v) then CheckboxBranch
    else TextBranch
  }

  /**
    The encoding of one question's stored value into the wire answer. Only
    the file and signature branches send the question type; every other
    branch sends one of the text or option fields.
  */
  function EncodeAnswer(q: Question, v: RawValue): (a: Answer)
    requires Fits(q.question_type, v)
    ensures a.question_id == q.id
    ensures OnePayload(a)
    ensures a.question_type.Some? <==> a.file_data.Some?
    ensures a.file_data.Some? <==> BranchOf(q.question_type, v) in {FileBranch, SignatureBranch}
    ensures a.selected_options.Some? <==> BranchOf(q.question_type, v) in {SingleChoiceBranch, CheckboxBranch}
    ensures a.question_type.Some? ==> a.question_type.value == q.question_type
    ensures BranchOf(q.question_type, v) == FileBranch
      ==> a.file_data == Some(FileData(v.file.name, v.file.mime, Some(v.base64)))
    ensures BranchOf(q.question_type, v) == SignatureBranch
      ==> a.file_data == Some(FileData("signature_" + q.id + ".png", "image/png", SignatureContent(v.s)))
    ensures BranchOf(q.question_type, v) == RatingBranch ==> a.answer_text == Some(IntToString(v.n))
    ensures BranchOf(q.question_type, v) == SingleChoiceBranch ==> a.selected_options == Some([v.s])
    ensures BranchOf(q.question_type, v) == CheckboxBranch ==> a.selected_options == Some(v.ids)
    ensures BranchOf(q.question_type, v) == TextBranch
      ==> a.answer_text == Some(if Truthy(v) then v.s else "")
  {
    match BranchOf(q.question_type, v)
    case FileBranch =>
      Answer(q.id, None, None, Some(FileData(v.file.name, v.file.mime, Some(v.base64))), Some(q.question_type))
    case SignatureBranch =>
      Answer(q.id, None, None, Some(FileData("signature_" + q.id + ".png", "image/png", SignatureContent(v.s))),
             Some(q.question_type))
    case RatingBranch => Answer(q.id, Some(IntToString(v.n)), None, None, None)
    case SingleChoiceBranch => Answer(q.id, None, Some([v.s]), None, None)
    case CheckboxBranch => Answer(q.id, None, Some(v.ids), None, None)
    case TextBranch => Answer(q.id, Some(if Truthy(v) then v.s else ""), None, None, None)
  }

  /** The order-preserving map over the form's questions. */
  function EncodeAll(questions: seq<Question>, store: Store): (answers: seq<Answer>)
    requires StoreFits(questions, store)
    ensures |answers| == |questions|
    ensures forall i :: 0 <= i < |answers| ==> answers[i] == EncodeAnswer(questions[i], Lookup(store, questions[i].id))
    ensures forall i :: 0 <= i < |answers| ==> answers[i].question_id == questions[i].id && OnePayload(answers[i])
    decreases |questions|
  {
    if |questions| == 0 then []
    else [EncodeAnswer(questions[0], Lookup(store, questions[0].id))] + EncodeAll(questions[1..], store)
  }

  /** What pressing submit does: nothing without a form, an alert when a required answer is missing, else one submit call. */
  datatype SubmitOutcome = NoForm | Blocked(missing: seq<Question>) | Submitted(answers: seq<Answer>)

  /** `handleSubmit`, with the submit call's argument as the result. */
  function HandleSubmit(form: Option<FormWithQuestions>, store: Store): (r: SubmitOutcome)
    requires form.Some? ==> StoreFits(form.value.questions, store)
    ensures r.NoForm? <==> form.None?
    ensures r.Blocked? <==> form.Some? && HasMissingRequired(form.value.questions, store)
    ensures r.Blocked? ==> |r.missing| > 0
    ensures r.Submitted? ==> r.answers == EncodeAll(form.value.questions, store)
  {
    match form
    case None => NoForm
    case Some(f) =>
      var missing := MissingRequired(f.questions, store);
      if |missing| > 0 then
        assert missing[0] in f.questions;
        Blocked(missing)
      else
        Submitted(EncodeAll(f.questions, store))
  }

  /** A data URL `header,payload` (payload without commas) is sent with exactly its payload. */
  lemma {:induction false} SignatureSendsPayload(header: string, payload: string)
    requires ',' !in header && ',' !in payload
    ensures SignatureContent(header + "," + payload) == Some(payload)
  {
    SplitJoin([header, payload], ',');
    assert Join([payload], ',') == payload;
    assert Join([header, payload], ',') == header + "," + payload;
  }

  /** A rating is sent as its decimal text, and reading that text back gives the rating. */
  lemma RatingSendsDigits(q: Question, rating: int)
    requires IsRatingType(q.question_type)
    requires Fits(q.question_type, Number(rating))
    ensures EncodeAnswer(q, Number(rating)).answer_text.Some?
    ensures ParseNat(EncodeAnswer(q, Number(rating)).answer_text.value) == Some(rating)
  {
    ParseNatToString(rating);
  }

  /** A file question with nothing picked falls through to the text branch and is sent as an empty answer text. */
  lemma EmptyFileSentAsText(q: Question, v: RawValue)
    requires q.question_type == "file_upload"
    requires v == Absent || v == Null
    ensures EncodeAnswer(q, v) == Answer(q.id, Some(""), None, None, None)
  {
  }
}
