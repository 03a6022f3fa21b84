/**
  The stand-alone builder page (`frontend/src/features/forms/forms.tsx`,
  with the local question type of `frontend/src/features/forms/types.ts`):
  three question kinds, each with its placeholder, and the page handlers.
  The option handlers are the shared ones of the editor module. Unlike
  the edit page's handler, this page's delete handler clears the active
  question when it deletes it, and a kind change keeps a question's
  options. The Delete and Duplicate buttons sit inside the question's
  card, whose click handler also runs on a button click; the clicks are
  modelled beside the handlers.
*/
module FormBuilder {
  import opened Wrappers
  import FormTypes
  import opened Editor

  /** The builder's kinds. */
  datatype BuilderKind = MultipleChoice | ShortAnswer | Paragraph

  /** The kind's wire name in the page's local type. */
  function BuilderTag(k: BuilderKind): string {
    match k
    case MultipleChoice => "multiple-choice"
    case ShortAnswer => "short-answer"
    case Paragraph => "paragraph"
  }

  /** `getPlaceholderForType`, a helper of the page that nothing calls: a placeholder text for each kind. */
  function Placeholder(k: BuilderKind): (p: string)
    ensures p != ""
  {
    match k
    case ShortAnswer => "Short answer text..."
    case Paragraph => "Long answer text..."
    case MultipleChoice => "Select an option..."
  }

  /** Different kinds have different names and different placeholders. */
  lemma KindsDistinguishable(a: BuilderKind, b: BuilderKind)
    requires a != b
    ensures BuilderTag(a) != BuilderTag(b)
    ensures Placeholder(a) != Placeholder(b)
  {
  }

  type BuilderQuestion = EditorQuestion<BuilderKind>

  type BuilderState = EditorState<BuilderKind>

  /** No question is active, or the active id names a question of the page. */
  predicate ActiveValid(st: BuilderState) {
    st.active.None? || !FreshId(st.questions, st.active.value)
  }

  /**
    The page as it opens: one required multiple-choice question with three
    options; it is active when its id is not empty.
  */
  function InitialPage(questionId: FormTypes.Id, optionIds: seq<FormTypes.Id>): (st: BuilderState)
    requires |optionIds| == 3
    ensures |st.questions| == 1 && st.questions[0].id == questionId
    ensures st.questions[0].kind == MultipleChoice && st.questions[0].required
    ensures OptionTexts(st.questions[0].options) == ["General Inquiry", "Product Support", "Feedback"]
    ensures st.active == (if questionId != "" then Some(questionId) else None)
    ensures ActiveValid(st)
  {
    var q := EditorQuestion(questionId, "What is your primary reason for visiting today?", MultipleChoice,
                            [EditorOption(optionIds[0], "General Inquiry"), EditorOption(optionIds[1], "Product Support"),
                             EditorOption(optionIds[2], "Feedback")],
                            true);
    EditorState([q], if questionId != "" then Some(questionId) else None)
  }

  /** `addQuestion`: a short-answer question with one option "Option 1", last and active. */
  function AddQuestion(st: BuilderState, id: FormTypes.Id, optionId: FormTypes.Id): (r: BuilderState)
    ensures |r.questions| == |st.questions| + 1 && r.questions[..|st.questions|] == st.questions
    ensures r.questions[|st.questions|] == EditorQuestion(id, "", ShortAnswer, [EditorOption(optionId, OptionLabel(1))], false)
    ensures r.active == Some(id) && ActiveValid(r)
  {
    assert OptionLabel(1) == "Option " + "1" == "Option 1";
    var r := AppendQuestion(st, EditorQuestion(id, "", ShortAnswer, [EditorOption(optionId, "Option 1")], false));
    assert r.questions[|st.questions|].id == id;
    r
  }

  /** `updateQuestion`: the question with the edited one's id is replaced; the active question stays. */
  function UpdateQuestion(st: BuilderState, u: BuilderQuestion): (r: BuilderState)
    ensures r.questions == ReplaceById(st.questions, u) && r.active == st.active
  {
    st.(questions := ReplaceById(st.questions, u))
  }

  /** `deleteQuestion`: the question goes, and the active question is cleared exactly when it was the deleted one. */
  function DeleteQuestion(st: BuilderState, id: FormTypes.Id): (r: BuilderState)
    ensures r.questions == DeleteById(st.questions, id)
    ensures r.active == if st.active == Some(id) then None else st.active
  {
    EditorState(DeleteById(st.questions, id), if st.active == Some(id) then None else st.active)
  }

  /**
    The Delete button as clicked: the handler runs, then the click reaches
    the card, which makes the deleted question active again. Every such
    click leaves the active id naming no question of the page.
  */
  function DeleteButtonClick(st: BuilderState, id: FormTypes.Id): (r: BuilderState)
    ensures r.questions == DeleteById(st.questions, id)
    ensures r.active == Some(id)
    ensures !ActiveValid(r)
  {
    DeleteQuestion(st, id).(active := Some(id))
  }

  /**
    `duplicateQuestion`: the copy is added and becomes active, and deleting
    it again gives back the list as it was; an unknown id changes nothing.
  */
  function DuplicateQuestion(st: BuilderState, id: FormTypes.Id, newId: FormTypes.Id, optionIds: seq<FormTypes.Id>): (r: BuilderState)
    requires EnoughOptionIds(st.questions, id, optionIds)
    ensures FreshId(st.questions, id) ==> r == st
    ensures !FreshId(st.questions, id) ==> |r.questions| == |st.questions| + 1 && r.active == Some(newId) && ActiveValid(r)
    ensures FreshId(st.questions, newId) ==> DeleteById(r.questions, newId) == st.questions
  {
    var r := Duplicate(st, id, newId, optionIds);
    if FreshId(st.questions, id) then
      if FreshId(st.questions, newId) then DuplicateThenDeleteRestores(st.questions, id, newId, optionIds); r
      else r
    else
      var i := FindIndex(st.questions, id).value;
      assert r.questions[i + 1].id == newId;
      if FreshId(st.questions, newId) then DuplicateThenDeleteRestores(st.questions, id, newId, optionIds); r
      else r
  }

  /** The kind selector: only the kind changes; the options are kept whatever the kind. */
  function ChangeKind(q: BuilderQuestion, k: BuilderKind): (r: BuilderQuestion)
    ensures r.kind == k && r.options == q.options && r.id == q.id && r.text == q.text && r.required == q.required
  {
    q.(kind := k)
  }

  /** Changing the kind away and back restores the question: on this page the change is undoable. */
  lemma KindChangeUndoable(q: BuilderQuestion, away: BuilderKind)
    ensures ChangeKind(ChangeKind(q, away), q.kind) == q
  {
  }

  /** The required switch: only the flag changes. */
  function SetRequired(q: BuilderQuestion, required: bool): (r: BuilderQuestion)
    ensures r.required == required && r.(required := q.required) == q
  {
    q.(required := required)
  }

  /** Any sequence of the page's operations keeps the active question pointing at a question of the page. */
  lemma {:induction false} ActiveStaysValid(st: BuilderState, ops: seq<BuilderOp>)
    requires ActiveValid(st)
    ensures ActiveValid(Run(st, ops))
    decreases |ops|
  {
    if |ops| > 0 {
      StepKeepsActiveValid(st, ops[0]);
      ActiveStaysValid(Step(st, ops[0]), ops[1..]);
    }
  }

  /**
    Each handler keeps the active question pointing at a question of the
    page: updates keep the ids, a deleted active question is cleared, and
    added and copied questions are present when they become active.
  */
  lemma StepKeepsActiveValid(st: BuilderState, op: BuilderOp)
    requires ActiveValid(st)
    ensures ActiveValid(Step(st, op))
  {
    var r := Step(st, op);
    if op.Update? {
      ReplaceLaws(st.questions, op.u);
      assert forall k :: 0 <= k < |st.questions| ==> r.questions[k].id == Ids(r.questions)[k] == st.questions[k].id;
    } else if op.Delete? {
      if r.active.Some? {
        var k :| 0 <= k < |st.questions| && st.questions[k].id == r.active.value;
        assert st.questions[k] in r.questions;
      }
    } else if op.Copy? && EnoughOptionIds(st.questions, op.id, op.optionIds) && !FreshId(st.questions, op.id) {
      var i := FindIndex(st.questions, op.id).value;
      assert r.questions[i + 1].id == op.newId;
    }
  }

  /** One user action on the page; a duplicate carries the fresh ids the page would draw. */
  datatype BuilderOp =
    | Add(id: FormTypes.Id, optionId: FormTypes.Id)
    | Update(u: BuilderQuestion)
    | Delete(id: FormTypes.Id)
    | Copy(id: FormTypes.Id, newId: FormTypes.Id, optionIds: seq<FormTypes.Id>)

  function Step(st: BuilderState, op: BuilderOp): BuilderState {
    match op
    case Add(id, optionId) => AddQuestion(st, id, optionId)
    case Update(u) => UpdateQuestion(st, u)
    case Delete(id) => DeleteQuestion(st, id)
    case Copy(id, newId, optionIds) =>
      if EnoughOptionIds(st.questions, id, optionIds) then DuplicateQuestion(st, id, newId, optionIds) else st
  }

  function Run(st: BuilderState, ops: seq<BuilderOp>): BuilderState
    decreases |ops|
  {
    if |ops| == 0 then st else Run(Step(st, ops[0]), ops[1..])
  }
}
