/**
  The path of one submission through the system: the public page fetches
  the form from `getFormById`, shows it only when it is public, encodes the
  respondent's answers, and the submit endpoint stores them; the owner then
  reads the response back.
*/
module Submission {
  import opened Wrappers
  import opened FormTypes
  import opened Store
  import FormController
  import ResponseController
  import PublicForm

  /**
    A complete set of answers to a public form is accepted with 201 and
    reads back for the owner as one answer per question of the form, in
    the form's order.
  */
  lemma {:induction false} PublicSubmissionReadsBack(db: Db, formId: Id, store: PublicForm.Store, newId: Id,
                                                     answerIds: seq<Id>, now: int)
    requires FormController.GetFormById(db, formId).Success?
    requires FormById(db, formId).value.is_public
    requires var data := FormController.GetFormById(db, formId).value;
      && PublicForm.StoreFits(data.questions, store)
      && !PublicForm.HasMissingRequired(data.questions, store)
      && |answerIds| == |data.questions|
    requires ResponseController.FreshResponseId(db, newId)
    ensures var data := FormController.GetFormById(db, formId).value;
      var shown := PublicForm.LoadForm(Some(data));
      var out := PublicForm.HandleSubmit(shown, store);
      && shown == Some(data)
      && out.Submitted?
      && var h := ResponseController.SubmitResponse(db, formId, Some(out.answers), newId, answerIds, now);
         && h.reply == Success(StatusCreated, newId)
         && var got := ResponseController.GetResponseById(h.db, FormById(db, formId).value.created_by, newId);
            && got.Success?
            && |got.value.answers| == |data.questions|
            && forall i :: 0 <= i < |data.questions| ==> got.value.answers[i].question_id == data.questions[i].id
  {
    var data := FormController.GetFormById(db, formId).value;
    var shown := PublicForm.LoadForm(Some(data));
    var out := PublicForm.HandleSubmit(shown, store);
    assert out.Submitted?;
    ResponseController.SubmittedResponseReadsBack(db, formId, Some(out.answers), newId, answerIds, now);
  }

  /**
    A private form is served by `getFormById`, but the public page does not
    show it, and a submission made directly to the endpoint is refused with
    403 without storing anything.
  */
  lemma PrivateFormTakesNoAnswers(db: Db, formId: Id, answers: seq<Answer>, newId: Id, answerIds: seq<Id>, now: int)
    requires FormById(db, formId).Some? && !FormById(db, formId).value.is_public
    requires |answerIds| == |answers|
    ensures FormController.GetFormById(db, formId).Success?
    ensures PublicForm.LoadForm(Some(FormController.GetFormById(db, formId).value)).None?
    ensures ResponseController.SubmitResponse(db, formId, Some(answers), newId, answerIds, now)
         == Handled(Failure(StatusForbidden), db)
  {
  }
}
