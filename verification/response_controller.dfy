/**
  The response endpoints (`backend/src/controllers/responseController.js`):
  the public submission of a response with its answers, and the owner-only
  listing, reading and deletion of responses.
*/
module ResponseController {
  import opened Wrappers
  import opened Text
  import opened Seqs
  import opened FormTypes
  import opened Store

  // ---------------------------------------------------------------- submitResponse

  /** The list of answers a request carries; a missing or non-array `answers` field is `None`. */
  function AnswerList(answers: Option<seq<Answer>>): seq<Answer> {
    if answers.Some? then answers.value else []
  }

  /**
    The row stored for one submitted answer: an empty text is stored as
    null, the selection is copied as given, and the file data is dropped.
  */
  function StoreAnswer(a: Answer, responseId: Id, id: Id): (row: AnswerRow)
    ensures row.response_id == responseId && row.question_id == a.question_id
    ensures row.answer_text.Some? <==> Filled(a.answer_text)
    ensures row.answer_text.Some? ==> row.answer_text == a.answer_text
    ensures row.selected_options == a.selected_options
  {
    AnswerRow(id, responseId, a.question_id, if Filled(a.answer_text) then a.answer_text else None, a.selected_options)
  }

  function StoreAnswers(answers: seq<Answer>, responseId: Id, ids: seq<Id>): (rows: seq<AnswerRow>)
    requires |ids| == |answers|
    ensures |rows| == |answers|
    ensures forall i :: 0 <= i < |rows| ==> rows[i] == StoreAnswer(answers[i], responseId, ids[i])
  {
    seq(|answers|, i requires 0 <= i < |answers| => StoreAnswer(answers[i], responseId, ids[i]))
  }

  /**
    `submitResponse`: 400 without an answer list, 404 for a missing form,
    403 for a form that is not public; otherwise one response row and one
    answer row per submitted answer are inserted and the new id returned.
    The answers are not checked against the form's questions.
  */
  function SubmitResponse(db: Db, formId: Id, answers: Option<seq<Answer>>, newId: Id, answerIds: seq<Id>, now: int)
    : (h: Handled<Id>)
    requires |answerIds| == |AnswerList(answers)|
    ensures answers.None? ==> h == Handled(Failure(StatusBadRequest), db)
    ensures answers.Some? && FormById(db, formId).None? ==> h == Handled(Failure(StatusNotFound), db)
    ensures answers.Some? && FormById(db, formId).Some? && !FormById(db, formId).value.is_public
      ==> h == Handled(Failure(StatusForbidden), db)
    ensures h.reply.Success? <==> answers.Some? && FormById(db, formId).Some? && FormById(db, formId).value.is_public
    ensures h.reply.Success? ==> (h.reply.status == StatusCreated && h.reply.value == newId
      && h.db == db.(responses := db.responses + [ResponseRow(newId, formId, now)],
                     answers := db.answers + StoreAnswers(answers.value, newId, answerIds)))
  {
    if answers.None? then Handled(Failure(StatusBadRequest), db)
    else
      match FormById(db, formId)
      case None => Handled(Failure(StatusNotFound), db)
      case Some(f) =>
        if !f.is_public then Handled(Failure(StatusForbidden), db)
        else
          Handled(Success(StatusCreated, newId),
                  db.(responses := db.responses + [ResponseRow(newId, formId, now)],
                      answers := db.answers + StoreAnswers(answers.value, newId, answerIds)))
  }

  // ---------------------------------------------------------------- reading answers back

  function OfResponse(responseId: Id): AnswerRow -> bool {
    (a: AnswerRow) => a.response_id == responseId
  }

  /** The question an answer refers to, embedded as text and type, or nothing when it is gone. */
  function JoinQuestion(db: Db, questionId: Id): Option<JoinedQuestion> {
    match QuestionById(db, questionId)
    case None => None
    case Some(q) => Some(JoinedQuestion(q.question_text, q.question_type))
  }

  /** A stored answer as read back; the server never fills the file columns. */
  function JoinAnswer(db: Db, a: AnswerRow): (r: ResponseAnswer)
    ensures r.id == a.id && r.response_id == a.response_id && r.question_id == a.question_id
    ensures r.answer_text == a.answer_text && r.selected_options == a.selected_options
    ensures r.file_url.None? && r.questions == JoinQuestion(db, a.question_id)
  {
    ResponseAnswer(a.id, a.response_id, a.question_id, a.answer_text, a.selected_options,
                   None, None, None, None, JoinQuestion(db, a.question_id))
  }

  /** The answers of one response, in storage order, each with its question joined in. */
  function AnswersOf(db: Db, responseId: Id): (answers: seq<ResponseAnswer>)
    ensures |answers| == |Filter(db.answers, OfResponse(responseId))|
    ensures forall i :: 0 <= i < |answers| ==> answers[i].response_id == responseId
    ensures forall i :: 0 <= i < |answers| ==> answers[i] == JoinAnswer(db, Filter(db.answers, OfResponse(responseId))[i])
  {
    Map(Filter(db.answers, OfResponse(responseId)), (a: AnswerRow) => JoinAnswer(db, a))
  }

  function WithAnswers(db: Db, r: ResponseRow): Response {
    Response(r.id, r.form_id, r.submitted_at, AnswersOf(db, r.id))
  }

  // ---------------------------------------------------------------- getFormResponses

  datatype FormResponses = FormResponses(responses: seq<Response>, total: nat)

  function ResponseInForm(formId: Id): ResponseRow -> bool {
    (r: ResponseRow) => r.form_id == formId
  }

  function SubmittedAt(r: ResponseRow): int {
    r.submitted_at
  }

  /** The stored row a listed response was read from. */
  function RowOf(r: Response): ResponseRow {
    ResponseRow(r.id, r.form_id, r.submitted_at)
  }

  /**
    `getFormResponses`: 403 unless the caller owns the form; otherwise the
    form's responses newest first, each with its answers, and their count.
  */
  function GetFormResponses(db: Db, user: Id, formId: Id): (r: Reply<FormResponses>)
    ensures r.Success? <==> Owns(db, user, formId)
    ensures r.Failure? ==> r.status == StatusForbidden
    ensures r.Success? ==> (r.status == StatusOk
      && r.value.total == |r.value.responses| == |Filter(db.responses, ResponseInForm(formId))|
      && (forall i, j :: 0 <= i < j < |r.value.responses| ==>
            r.value.responses[i].submitted_at >= r.value.responses[j].submitted_at)
      && (forall i :: 0 <= i < |r.value.responses| ==>
            r.value.responses[i].form_id == formId
            && r.value.responses[i].answers == AnswersOf(db, r.value.responses[i].id))
      && multiset(Map(r.value.responses, RowOf)) == multiset(Filter(db.responses, ResponseInForm(formId))))
  {
    if !Owns(db, user, formId) then Failure(StatusForbidden)
    else
      var rows := Filter(db.responses, ResponseInForm(formId));
      var sorted := SortByDescending(rows, SubmittedAt);
      assert |sorted| == |multiset(sorted)|;
      PermutationMembers(sorted, rows);
      var responses := Map(sorted, (row: ResponseRow) => WithAnswers(db, row));
      assert Map(responses, RowOf) == sorted;
      Success(StatusOk, FormResponses(responses, |responses|))
  }

  // ---------------------------------------------------------------- getResponseById / deleteResponse

  /** A response row that matches the id and whose form exists: the rows an inner join with `forms` keeps. */
  function JoinableResponse(db: Db, responseId: Id): ResponseRow -> bool {
    (r: ResponseRow) => r.id == responseId && FormById(db, r.form_id).Some?
  }

  /** The response with this id read through an inner join with its form, with `.single()`. */
  function ResponseById(db: Db, responseId: Id): (r: Option<ResponseRow>)
    ensures r.Some? ==> r.value in db.responses && r.value.id == responseId && FormById(db, r.value.form_id).Some?
  {
    Single(Filter(db.responses, JoinableResponse(db, responseId)))
  }

  /**
    `getResponseById`: 404 when the response (or its form) is missing, 403
    when the caller does not own the form, otherwise the response with its answers.
  */
  function GetResponseById(db: Db, user: Id, responseId: Id): (r: Reply<Response>)
    ensures ResponseById(db, responseId).None? ==> r == Failure(StatusNotFound)
    ensures r.Success? <==> (ResponseById(db, responseId).Some?
      && FormById(db, ResponseById(db, responseId).value.form_id).value.created_by == user)
    ensures r.Failure? && ResponseById(db, responseId).Some? ==> r.status == StatusForbidden
    ensures r.Success? ==> (r.status == StatusOk && r.value.id == responseId
      && r.value.form_id == ResponseById(db, responseId).value.form_id
      && r.value.submitted_at == ResponseById(db, responseId).value.submitted_at
      && RowOf(r.value) == ResponseById(db, responseId).value
      && r.value.answers == AnswersOf(db, responseId))
  {
    match ResponseById(db, responseId)
    case None => Failure(StatusNotFound)
    case Some(row) =>
      if FormById(db, row.form_id).value.created_by != user then Failure(StatusForbidden)
      else Success(StatusOk, WithAnswers(db, row))
  }

  /** The owner of a response's form, through the same inner join; nothing when the response is missing. */
  function ResponseOwner(db: Db, responseId: Id): Option<Id> {
    match ResponseById(db, responseId)
    case None => None
    case Some(row) => Some(FormById(db, row.form_id).value.created_by)
  }

  /**
    `deleteResponse`: a missing response and a foreign one both get 403;
    otherwise the response row is deleted and its answers go by the
    schema's assumed cascade.
  */
  function DeleteResponse(db: Db, user: Id, responseId: Id): (h: Handled<Ack>)
    ensures h.reply.Success? <==> ResponseOwner(db, responseId) == Some(user)
    ensures h.reply.Failure? ==> h.reply.status == StatusForbidden && h.db == db
    ensures h.reply.Success? ==> (h.reply.status == StatusOk
      && (forall k :: 0 <= k < |h.db.responses| ==> h.db.responses[k].id != responseId)
      && (forall k :: 0 <= k < |h.db.answers| ==> h.db.answers[k].response_id != responseId)
      && (forall k :: 0 <= k < |db.responses| && db.responses[k].id != responseId ==> db.responses[k] in h.db.responses)
      && (forall k :: 0 <= k < |db.answers| && db.answers[k].response_id != responseId ==> db.answers[k] in h.db.answers)
      && h.db == db.(responses := h.db.responses, answers := h.db.answers))
  {
    if ResponseOwner(db, responseId) != Some(user) then Handled(Failure(StatusForbidden), db)
    else
      Handled(Success(StatusOk, Ack),
              db.(responses := Filter(db.responses, (r: ResponseRow) => r.id != responseId),
                  answers := Filter(db.answers, (a: AnswerRow) => a.response_id != responseId)))
  }

  // ---------------------------------------------------------------- properties across endpoints

  /** No stored row uses this id as a response id. */
  predicate FreshResponseId(db: Db, id: Id) {
    (forall k :: 0 <= k < |db.responses| ==> db.responses[k].id != id)
    && (forall k :: 0 <= k < |db.answers| ==> db.answers[k].response_id != id)
  }

  /**
    A submitted response reads back for the form's owner with one answer
    per submitted answer, in order: the same question, the text (an empty
    one as null) and the selection.
  */
  lemma {:induction false} SubmittedResponseReadsBack(db: Db, formId: Id, answers: Option<seq<Answer>>, newId: Id,
                                                      answerIds: seq<Id>, now: int)
    requires |answerIds| == |AnswerList(answers)|
    requires FreshResponseId(db, newId)
    requires SubmitResponse(db, formId, answers, newId, answerIds, now).reply.Success?
    ensures var after := SubmitResponse(db, formId, answers, newId, answerIds, now).db;
      var owner := FormById(db, formId).value.created_by;
      var got := GetResponseById(after, owner, newId);
      && got.Success? && got.value.form_id == formId
      && |got.value.answers| == |answers.value|
      && forall i :: 0 <= i < |answers.value| ==>
           && got.value.answers[i].question_id == answers.value[i].question_id
           && (got.value.answers[i].answer_text.Some? <==> Filled(answers.value[i].answer_text))
           && (got.value.answers[i].answer_text.Some? ==> got.value.answers[i].answer_text == answers.value[i].answer_text)
           && got.value.answers[i].selected_options == answers.value[i].selected_options
  {
    var after := SubmitResponse(db, formId, answers, newId, answerIds, now).db;
    var row := ResponseRow(newId, formId, now);
    var stored := StoreAnswers(answers.value, newId, answerIds);
    assert after.forms == db.forms;
    assert FormById(after, formId) == FormById(db, formId);
    // the response row
    FilterSnoc(db.responses, row, JoinableResponse(after, newId));
    FilterNone(db.responses, JoinableResponse(after, newId));
    assert ResponseById(after, newId) == Some(row);
    // its answer rows
    FilterConcat(db.answers, stored, OfResponse(newId));
    FilterNone(db.answers, OfResponse(newId));
    FilterAll(stored, OfResponse(newId));
    assert Filter(after.answers, OfResponse(newId)) == stored;
  }

  /** A submission adds exactly one response to the owner's listing of the form. */
  lemma {:induction false} SubmissionCountsOnce(db: Db, formId: Id, answers: Option<seq<Answer>>, newId: Id,
                                                answerIds: seq<Id>, now: int)
    requires |answerIds| == |AnswerList(answers)|
    requires SubmitResponse(db, formId, answers, newId, answerIds, now).reply.Success?
    ensures var after := SubmitResponse(db, formId, answers, newId, answerIds, now).db;
      var owner := FormById(db, formId).value.created_by;
      && GetFormResponses(db, owner, formId).Success?
      && GetFormResponses(after, owner, formId).Success?
      && GetFormResponses(after, owner, formId).value.total == GetFormResponses(db, owner, formId).value.total + 1
  {
    var after := SubmitResponse(db, formId, answers, newId, answerIds, now).db;
    assert after.forms == db.forms;
    FilterSnoc(db.responses, ResponseRow(newId, formId, now), ResponseInForm(formId));
  }

  /** After its owner deletes a response, reading it gives not-found. */
  lemma DeletedResponseIsGone(db: Db, user: Id, responseId: Id)
    requires DeleteResponse(db, user, responseId).reply.Success?
    ensures GetResponseById(DeleteResponse(db, user, responseId).db, user, responseId) == Failure(StatusNotFound)
  {
    var after := DeleteResponse(db, user, responseId).db;
    FilterNone(after.responses, JoinableResponse(after, responseId));
  }
}
