/**
  The form and question endpoints (`backend/src/controllers/formController.js`):
  creating, listing, reading, updating and deleting forms, and adding,
  updating and deleting questions, each as a pure function from the
  database and the request to the reply and the new database.
*/
module FormController {
  import opened Wrappers
  import opened Text
  import opened Seqs
  import opened FormTypes
  import opened Store

  // ---------------------------------------------------------------- createForm

  /** The fields `createForm` reads from the request body; `None` is a missing field. */
  datatype CreateFormBody = CreateFormBody(title: Option<string>, description: Option<string>)

  /** `createForm`: a missing or empty title is refused; otherwise a private form owned by the caller is inserted. */
  function CreateForm(db: Db, user: Id, body: CreateFormBody, newId: Id, now: int): (h: Handled<Form>)
    ensures h.reply.Success? <==> Filled(body.title)
    ensures h.reply.Failure? ==> h.reply.status == StatusBadRequest && h.db == db
    ensures h.reply.Success? ==> (h.reply.status == StatusCreated
      && h.reply.value == Form(newId, body.title.value, body.description, user, false, now)
      && h.db == db.(forms := db.forms + [h.reply.value]))
  {
    if !Filled(body.title) then Handled(Failure(StatusBadRequest), db)
    else
      var f := Form(newId, body.title.value, body.description, user, false, now);
      Handled(Success(StatusCreated, f), db.(forms := db.forms + [f]))
  }

  /** A created form is found by its id, belongs to its creator and starts private. */
  lemma CreatedFormIsOwnedAndPrivate(db: Db, user: Id, body: CreateFormBody, newId: Id, now: int)
    requires FreshFormId(db, newId)
    requires Filled(body.title)
    ensures var h := CreateForm(db, user, body, newId, now);
      && Owns(h.db, user, newId)
      && FormById(h.db, newId) == Some(h.reply.value)
      && !h.reply.value.is_public
  {
    var h := CreateForm(db, user, body, newId, now);
    FindsAppendedForm(db, h.reply.value);
  }

  // ---------------------------------------------------------------- getUserForms

  function CreatedBy(user: Id): Form -> bool {
    (f: Form) => f.created_by == user
  }

  function CreatedAt(f: Form): int {
    f.created_at
  }

  /** `getUserForms`: exactly the caller's forms, newest first. */
  function GetUserForms(db: Db, user: Id): (r: Reply<seq<Form>>)
    ensures r.Success? && r.status == StatusOk
    ensures forall k :: 0 <= k < |r.value| ==> r.value[k] in db.forms && r.value[k].created_by == user
    ensures forall k :: 0 <= k < |db.forms| && db.forms[k].created_by == user ==> db.forms[k] in r.value
    ensures forall i, j :: 0 <= i < j < |r.value| ==> r.value[i].created_at >= r.value[j].created_at
    ensures multiset(r.value) == multiset(Filter(db.forms, CreatedBy(user)))
  {
    var mine := Filter(db.forms, CreatedBy(user));
    var sorted := SortByDescending(mine, CreatedAt);
    PermutationMembers(sorted, mine);
    PermutationMembers(mine, sorted);
    Success(StatusOk, sorted)
  }

  // ---------------------------------------------------------------- getFormById

  function InForm(formId: Id): QuestionRow -> bool {
    (q: QuestionRow) => q.form_id == formId
  }

  function OfQuestion(questionId: Id): QuestionOption -> bool {
    (o: QuestionOption) => o.question_id == questionId
  }

  function RowOrder(q: QuestionRow): int {
    q.order_index
  }

  function OptionOrder(o: QuestionOption): int {
    o.order_index
  }

  /** The options of one question ascending by `order_index`; an empty list when it has none. */
  function OptionsOf(db: Db, questionId: Id): (opts: seq<QuestionOption>)
    ensures forall i, j :: 0 <= i < j < |opts| ==> opts[i].order_index <= opts[j].order_index
    ensures forall i :: 0 <= i < |opts| ==> opts[i].question_id == questionId && opts[i] in db.options
    ensures multiset(opts) == multiset(Filter(db.options, OfQuestion(questionId)))
  {
    var mine := Filter(db.options, OfQuestion(questionId));
    var sorted := SortBy(mine, OptionOrder);
    PermutationMembers(sorted, mine);
    sorted
  }

  /** The question rows of one form ascending by `order_index`. */
  function QuestionsOf(db: Db, formId: Id): (rows: seq<QuestionRow>)
    ensures forall i, j :: 0 <= i < j < |rows| ==> rows[i].order_index <= rows[j].order_index
    ensures forall i :: 0 <= i < |rows| ==> rows[i].form_id == formId && rows[i] in db.questions
    ensures multiset(rows) == multiset(Filter(db.questions, InForm(formId)))
  {
    var mine := Filter(db.questions, InForm(formId));
    var sorted := SortBy(mine, RowOrder);
    PermutationMembers(sorted, mine);
    sorted
  }

  /** A question row with its options attached. */
  function Assemble(db: Db, q: QuestionRow): Question {
    Question(q.id, q.form_id, q.question_text, q.question_type, q.is_required, q.order_index, OptionsOf(db, q.id))
  }

  /** A served question carries every column of its stored row. */
  predicate StoredAs(q: Question, row: QuestionRow) {
    && q.id == row.id && q.form_id == row.form_id && q.question_text == row.question_text
    && q.question_type == row.question_type && q.is_required == row.is_required && q.order_index == row.order_index
  }

  /** The form with its questions in order, each with its options in order. */
  function AssembleForm(db: Db, f: Form): (fq: FormWithQuestions)
    ensures fq.form == f
    ensures forall i, j :: 0 <= i < j < |fq.questions| ==> fq.questions[i].order_index <= fq.questions[j].order_index
    ensures forall i :: 0 <= i < |fq.questions| ==> fq.questions[i].form_id == f.id
    ensures forall i :: 0 <= i < |fq.questions| ==> fq.questions[i].options == OptionsOf(db, fq.questions[i].id)
    ensures |fq.questions| == |Filter(db.questions, InForm(f.id))|
    ensures |fq.questions| == |QuestionsOf(db, f.id)|
    ensures forall i :: 0 <= i < |fq.questions| ==> StoredAs(fq.questions[i], QuestionsOf(db, f.id)[i])
  {
    var rows := QuestionsOf(db, f.id);
    assert |rows| == |multiset(rows)|;
    FormWithQuestions(f, Map(rows, (q: QuestionRow) => Assemble(db, q)))
  }

  /**
    `getFormById` as written. The form is read with `.single()`, whose
    error for a missing row is thrown, so a missing form gets 500; the
    not-found branch after it is never reached. There is no ownership or
    `is_public` check.
  */
  function GetFormByIdAsWritten(db: Db, formId: Id): (r: Reply<FormWithQuestions>)
    ensures r.Failure? <==> FormById(db, formId).None?
    ensures r.Failure? ==> r.status == StatusServerError
    ensures r.Success? ==> r.status == StatusOk && r.value == AssembleForm(db, FormById(db, formId).value)
  {
    match FormById(db, formId)
    case None => Failure(StatusServerError)
    case Some(f) => Success(StatusOk, AssembleForm(db, f))
  }

  /** `getFormById` with the evidently intended not-found reply for a missing form. */
  function GetFormById(db: Db, formId: Id): (r: Reply<FormWithQuestions>)
    ensures r.Failure? <==> FormById(db, formId).None?
    ensures r.Failure? ==> r.status == StatusNotFound
    ensures r.Success? ==> r.status == StatusOk && r.value.form == FormById(db, formId).value
    ensures r.Success? ==> forall i, j :: 0 <= i < j < |r.value.questions| ==>
      r.value.questions[i].order_index <= r.value.questions[j].order_index
    ensures r.Success? ==> forall i :: 0 <= i < |r.value.questions| ==>
      r.value.questions[i].form_id == formId && r.value.questions[i].options == OptionsOf(db, r.value.questions[i].id)
    ensures r.Success? ==> |r.value.questions| == |Filter(db.questions, InForm(formId))|
    ensures r.Success? ==> forall i :: 0 <= i < |r.value.questions| ==>
      StoredAs(r.value.questions[i], QuestionsOf(db, formId)[i])
    ensures r.Success? ==> r.value == AssembleForm(db, FormById(db, formId).value)
  {
    match FormById(db, formId)
    case None => Failure(StatusNotFound)
    case Some(f) => Success(StatusOk, AssembleForm(db, f))
  }

  /** The not-found reply is never produced as written: a missing form always gets 500, where 404 is evidently meant. */
  lemma MissingFormGets500(db: Db, formId: Id)
    ensures GetFormByIdAsWritten(db, formId).status != StatusNotFound
    ensures FormById(db, formId).None? ==>
      GetFormByIdAsWritten(db, formId) == Failure(StatusServerError)
      && GetFormById(db, formId) == Failure(StatusNotFound)
  {
  }

  /** A concrete case: any id looked up in an empty database. */
  lemma EmptyDatabaseShowsDeadBranch(formId: Id)
    ensures GetFormByIdAsWritten(EmptyDb, formId) == Failure(StatusServerError)
  {
  }

  /** The correction changes nothing for a form that exists. */
  lemma CorrectionOnlyAffectsMissingForms(db: Db, formId: Id)
    requires FormById(db, formId).Some?
    ensures GetFormById(db, formId) == GetFormByIdAsWritten(db, formId)
  {
  }

  /** Reading a form needs neither ownership nor publication: a private form is served to anyone. */
  lemma PrivateFormsAreServed(db: Db, formId: Id)
    requires FormById(db, formId).Some? && !FormById(db, formId).value.is_public
    ensures GetFormById(db, formId).Success?
    ensures !GetFormById(db, formId).value.form.is_public
  {
  }

  // ---------------------------------------------------------------- updateForm

  /** The fields `updateForm` copies; a missing field is dropped from the update and keeps its stored value. */
  datatype UpdateFormBody = UpdateFormBody(title: Option<string>, description: Option<string>, is_public: Option<bool>)

  function ApplyFormUpdate(f: Form, body: UpdateFormBody): (g: Form)
    ensures g.id == f.id && g.created_by == f.created_by && g.created_at == f.created_at
    ensures g.title == body.title.GetOr(f.title)
    ensures g.description == (if body.description.Some? then body.description else f.description)
    ensures g.is_public == body.is_public.GetOr(f.is_public)
  {
    Form(f.id, body.title.GetOr(f.title), if body.description.Some? then body.description else f.description,
         f.created_by, body.is_public.GetOr(f.is_public), f.created_at)
  }

  /**
    `updateForm`: a caller who does not own the form (or a missing form)
    gets 403 and nothing changes; otherwise the form row takes the given
    fields, without any check of them.
  */
  function UpdateForm(db: Db, user: Id, formId: Id, body: UpdateFormBody): (h: Handled<Form>)
    ensures h.reply.Success? <==> Owns(db, user, formId)
    ensures h.reply.Failure? ==> h.reply.status == StatusForbidden && h.db == db
    ensures h.reply.Success? ==> (h.reply.status == StatusOk
      && h.reply.value == ApplyFormUpdate(FormById(db, formId).value, body)
      && FormById(h.db, formId) == Some(h.reply.value))
    ensures h.db == db.(forms := h.db.forms) && |h.db.forms| == |db.forms|
    ensures forall k :: 0 <= k < |db.forms| && db.forms[k].id != formId ==> h.db.forms[k] == db.forms[k]
  {
    if !Owns(db, user, formId) then Handled(Failure(StatusForbidden), db)
    else
      var f := FormById(db, formId).value;
      var apply := (x: Form) => ApplyFormUpdate(x, body);
      var forms := Update(db.forms, FormIdIs(formId), apply);
      FilterUpdate(db.forms, FormIdIs(formId), apply);
      assert Filter(db.forms, FormIdIs(formId)) == [f];
      assert Map([f], apply) == [apply(f)];
      Handled(Success(StatusOk, apply(f)), db.(forms := forms))
  }

  // ---------------------------------------------------------------- deleteForm

  predicate QuestionOfForm(db: Db, questionId: Id, formId: Id) {
    exists k :: 0 <= k < |db.questions| && db.questions[k].id == questionId && db.questions[k].form_id == formId
  }

  predicate ResponseOfForm(db: Db, responseId: Id, formId: Id) {
    exists k :: 0 <= k < |db.responses| && db.responses[k].id == responseId && db.responses[k].form_id == formId
  }

  /**
    The database after a form row is deleted. The handler deletes only the
    form row; the rest is the cascade the schema is assumed to declare: the
    form's questions and their options, its responses and their answers,
    its media and its branding go with it.
  */
  function RemoveForm(db: Db, formId: Id): (d: Db)
    ensures forall k :: 0 <= k < |d.forms| ==> d.forms[k].id != formId && d.forms[k] in db.forms
    ensures forall k :: 0 <= k < |d.questions| ==> d.questions[k].form_id != formId
    ensures forall k :: 0 <= k < |d.options| ==> !QuestionOfForm(db, d.options[k].question_id, formId)
    ensures forall k :: 0 <= k < |d.responses| ==> d.responses[k].form_id != formId
    ensures forall k :: 0 <= k < |d.answers| ==> !ResponseOfForm(db, d.answers[k].response_id, formId)
    ensures forall k :: 0 <= k < |d.media| ==> d.media[k].form_id != formId
    ensures forall k :: 0 <= k < |d.branding| ==> d.branding[k].form_id != formId
    ensures forall k :: 0 <= k < |db.forms| && db.forms[k].id != formId ==> db.forms[k] in d.forms
    ensures forall k :: 0 <= k < |db.questions| && db.questions[k].form_id != formId ==> db.questions[k] in d.questions
    ensures forall k :: 0 <= k < |db.responses| && db.responses[k].form_id != formId ==> db.responses[k] in d.responses
    ensures forall k :: 0 <= k < |db.options| && !QuestionOfForm(db, db.options[k].question_id, formId) ==> db.options[k] in d.options
    ensures forall k :: 0 <= k < |db.answers| && !ResponseOfForm(db, db.answers[k].response_id, formId) ==> db.answers[k] in d.answers
    ensures forall k :: 0 <= k < |db.media| && db.media[k].form_id != formId ==> db.media[k] in d.media
    ensures forall k :: 0 <= k < |db.branding| && db.branding[k].form_id != formId ==> db.branding[k] in d.branding
  {
    Db(Filter(db.forms, (f: Form) => f.id != formId),
       Filter(db.questions, (q: QuestionRow) => q.form_id != formId),
       Filter(db.options, (o: QuestionOption) => !QuestionOfForm(db, o.question_id, formId)),
       Filter(db.responses, (r: ResponseRow) => r.form_id != formId),
       Filter(db.answers, (a: AnswerRow) => !ResponseOfForm(db, a.response_id, formId)),
       Filter(db.media, (m: FormMedia) => m.form_id != formId),
       Filter(db.branding, (b: FormBranding) => b.form_id != formId))
  }

  /**
    `deleteForm`: 403 with nothing changed unless the caller owns the form;
    otherwise the form row is deleted and its dependants go by the assumed
    cascade of `RemoveForm`.
  */
  function DeleteForm(db: Db, user: Id, formId: Id): (h: Handled<Ack>)
    ensures h.reply.Success? <==> Owns(db, user, formId)
    ensures h.reply.Failure? ==> h.reply.status == StatusForbidden && h.db == db
    ensures h.reply.Success? ==> (h.reply.status == StatusOk && h.db == RemoveForm(db, formId)
      && FormById(h.db, formId).None?)
  {
    if !Owns(db, user, formId) then Handled(Failure(StatusForbidden), db)
    else
      var d := RemoveForm(db, formId);
      FilterNone(d.forms, FormIdIs(formId));
      Handled(Success(StatusOk, Ack), d)
  }

  // ---------------------------------------------------------------- addQuestion

  /** The fields `addQuestion` reads; `options` is `None` when missing or not an array. */
  datatype AddQuestionBody = AddQuestionBody(
    question_text: Option<string>,
    question_type: Option<string>,
    is_required: Option<bool>,
    options: Option<seq<string>>)

  function OptionTexts(body: AddQuestionBody): seq<string> {
    if body.options.Some? then body.options.value else []
  }

  /** The largest `order_index` among some question rows. */
  function MaxOrder(rows: seq<QuestionRow>): (m: int)
    requires |rows| > 0
    ensures forall k :: 0 <= k < |rows| ==> rows[k].order_index <= m
    ensures exists k :: 0 <= k < |rows| && rows[k].order_index == m
    decreases |rows|
  {
    if |rows| == 1 then rows[0].order_index
    else
      var m := MaxOrder(rows[1..]);
      if rows[0].order_index >= m then rows[0].order_index else m
  }

  /** The index a new question gets: one past the form's largest, or 0 for a form without questions. */
  function NextOrder(db: Db, formId: Id): (n: int)
    ensures Filter(db.questions, InForm(formId)) == [] ==> n == 0
    ensures forall k :: 0 <= k < |db.questions| && db.questions[k].form_id == formId ==> db.questions[k].order_index < n
    ensures Filter(db.questions, InForm(formId)) != [] ==>
      exists k :: 0 <= k < |db.questions| && db.questions[k].form_id == formId && db.questions[k].order_index == n - 1
  {
    var rows := Filter(db.questions, InForm(formId));
    if |rows| > 0 then MaxOrder(rows) + 1 else 0
  }

  /** Option `i` of the list: its text verbatim and `order_index = i`. */
  function NumberOptions(texts: seq<string>, questionId: Id, ids: seq<Id>): (opts: seq<QuestionOption>)
    requires |ids| == |texts|
    ensures |opts| == |texts|
    ensures forall i :: 0 <= i < |opts| ==> opts[i] == QuestionOption(ids[i], questionId, texts[i], i)
  {
    seq(|texts|, i requires 0 <= i < |texts| => QuestionOption(ids[i], questionId, texts[i], i))
  }

  /**
    `addQuestion`: the body is checked before ownership (400, then 403);
    the new question goes after every existing one of the form, and the
    given option texts become its options in order. The question type is
    not checked against the known kinds.
  */
  function AddQuestion(db: Db, user: Id, formId: Id, body: AddQuestionBody, newId: Id, optionIds: seq<Id>)
    : (h: Handled<QuestionRow>)
    requires |optionIds| == |OptionTexts(body)|
    ensures !Filled(body.question_text) || !Filled(body.question_type) ==> h == Handled(Failure(StatusBadRequest), db)
    ensures Filled(body.question_text) && Filled(body.question_type) && !Owns(db, user, formId)
      ==> h == Handled(Failure(StatusForbidden), db)
    ensures h.reply.Success? <==> Filled(body.question_text) && Filled(body.question_type) && Owns(db, user, formId)
    ensures h.reply.Success? ==> (h.reply.status == StatusCreated
      && h.reply.value == QuestionRow(newId, formId, body.question_text.value, body.question_type.value,
                                      body.is_required.GetOr(false), NextOrder(db, formId))
      && h.db == db.(questions := db.questions + [h.reply.value],
                     options := db.options + NumberOptions(OptionTexts(body), newId, optionIds)))
  {
    if !Filled(body.question_text) || !Filled(body.question_type) then Handled(Failure(StatusBadRequest), db)
    else if !Owns(db, user, formId) then Handled(Failure(StatusForbidden), db)
    else
      var row := QuestionRow(newId, formId, body.question_text.value, body.question_type.value,
                             body.is_required.GetOr(false), NextOrder(db, formId));
      Handled(Success(StatusCreated, row),
              db.(questions := db.questions + [row],
                  options := db.options + NumberOptions(OptionTexts(body), newId, optionIds)))
  }

  /** An added question is listed last when the form is read back, after every question it already had. */
  lemma {:induction false} AddedQuestionListedLast(db: Db, user: Id, formId: Id, body: AddQuestionBody,
                                                   newId: Id, optionIds: seq<Id>)
    requires |optionIds| == |OptionTexts(body)|
    requires AddQuestion(db, user, formId, body, newId, optionIds).reply.Success?
    ensures var after := AddQuestion(db, user, formId, body, newId, optionIds).db;
      && GetFormById(after, formId).Success?
      && |GetFormById(after, formId).value.questions| == |Filter(db.questions, InForm(formId))| + 1
      && GetFormById(after, formId).value.questions[|Filter(db.questions, InForm(formId))|].id == newId
  {
    var h := AddQuestion(db, user, formId, body, newId, optionIds);
    var row := h.reply.value;
    var before := Filter(db.questions, InForm(formId));
    assert h.db.forms == db.forms;
    assert FormById(h.db, formId) == FormById(db, formId);
    FilterSnoc(db.questions, row, InForm(formId));
    assert Filter(h.db.questions, InForm(formId)) == before + [row];
    forall k | 0 <= k < |before| ensures RowOrder(before[k]) < RowOrder(row) {
      assert before[k] in db.questions;
    }
    LargestKeySortsLast(before, row, RowOrder);
    var f := FormById(db, formId).value;
    assert QuestionsOf(h.db, formId)[|before|] == row;
    assert AssembleForm(h.db, f).questions[|before|] == Assemble(h.db, row);
  }

  // ---------------------------------------------------------------- updateQuestion / deleteQuestion

  /** The owner of a question's form, read through an inner join: nothing when the question or its form is missing. */
  function QuestionOwner(db: Db, questionId: Id): Option<Id> {
    match QuestionById(db, questionId)
    case None => None
    case Some(q) =>
      match FormById(db, q.form_id)
      case None => None
      case Some(f) => Some(f.created_by)
  }

  datatype UpdateQuestionBody = UpdateQuestionBody(
    question_text: Option<string>,
    question_type: Option<string>,
    is_required: Option<bool>)

  function ApplyQuestionUpdate(q: QuestionRow, body: UpdateQuestionBody): (u: QuestionRow)
    ensures u.id == q.id && u.form_id == q.form_id && u.order_index == q.order_index
    ensures u.question_text == body.question_text.GetOr(q.question_text)
    ensures u.question_type == body.question_type.GetOr(q.question_type)
    ensures u.is_required == body.is_required.GetOr(q.is_required)
  {
    QuestionRow(q.id, q.form_id, body.question_text.GetOr(q.question_text), body.question_type.GetOr(q.question_type),
                body.is_required.GetOr(q.is_required), q.order_index)
  }

  /**
    `updateQuestion`: 403 unless the caller owns the question's form;
    otherwise the given fields replace the stored ones, unchecked (an empty
    text is accepted). Order and options are untouched.
  */
  function UpdateQuestion(db: Db, user: Id, questionId: Id, body: UpdateQuestionBody): (h: Handled<QuestionRow>)
    ensures h.reply.Success? <==> QuestionOwner(db, questionId) == Some(user)
    ensures h.reply.Failure? ==> h.reply.status == StatusForbidden && h.db == db
    ensures h.reply.Success? ==> (h.reply.status == StatusOk
      && h.reply.value == ApplyQuestionUpdate(QuestionById(db, questionId).value, body)
      && QuestionById(h.db, questionId) == Some(h.reply.value))
    ensures h.db == db.(questions := h.db.questions) && |h.db.questions| == |db.questions|
    ensures forall k :: 0 <= k < |db.questions| && db.questions[k].id != questionId ==> h.db.questions[k] == db.questions[k]
  {
    if QuestionOwner(db, questionId) != Some(user) then Handled(Failure(StatusForbidden), db)
    else
      var q := QuestionById(db, questionId).value;
      var apply := (x: QuestionRow) => ApplyQuestionUpdate(x, body);
      var questions := Update(db.questions, QuestionIdIs(questionId), apply);
      FilterUpdate(db.questions, QuestionIdIs(questionId), apply);
      assert Filter(db.questions, QuestionIdIs(questionId)) == [q];
      assert Map([q], apply) == [apply(q)];
      Handled(Success(StatusOk, apply(q)), db.(questions := questions))
  }

  /**
    `deleteQuestion`: 403 unless the caller owns the question's form;
    otherwise the question row is deleted and its options go by the
    schema's assumed cascade. Answers naming the question are kept: the
    schema is assumed neither to cascade to them nor to refuse the delete.
  */
  function DeleteQuestion(db: Db, user: Id, questionId: Id): (h: Handled<Ack>)
    ensures h.reply.Success? <==> QuestionOwner(db, questionId) == Some(user)
    ensures h.reply.Failure? ==> h.reply.status == StatusForbidden && h.db == db
    ensures h.reply.Success? ==> (h.reply.status == StatusOk
      && QuestionById(h.db, questionId).None?
      && (forall k :: 0 <= k < |h.db.options| ==> h.db.options[k].question_id != questionId)
      && (forall k :: 0 <= k < |db.questions| && db.questions[k].id != questionId ==> db.questions[k] in h.db.questions)
      && (forall k :: 0 <= k < |db.options| && db.options[k].question_id != questionId ==> db.options[k] in h.db.options)
      && (forall k :: 0 <= k < |h.db.questions| ==> h.db.questions[k] in db.questions)
      && (forall k :: 0 <= k < |h.db.options| ==> h.db.options[k] in db.options)
      && h.db == db.(questions := h.db.questions, options := h.db.options))
  {
    if QuestionOwner(db, questionId) != Some(user) then Handled(Failure(StatusForbidden), db)
    else
      var questions := Filter(db.questions, (q: QuestionRow) => q.id != questionId);
      FilterNone(questions, QuestionIdIs(questionId));
      var options := Filter(db.options, (o: QuestionOption) => o.question_id != questionId);
      Handled(Success(StatusOk, Ack), db.(questions := questions, options := options))
  }
}
