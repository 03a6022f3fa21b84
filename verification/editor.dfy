/**
  The list operations of the form editors, shared by the edit page
  (`frontend/src/features/forms/Form.tsx`), the builder page
  (`frontend/src/features/forms/forms.tsx`) and the option editor
  (`frontend/src/features/forms/components/QuestionOptions.tsx`): adding,
  replacing, duplicating and deleting questions, and renaming, adding and
  removing options. The pages differ only in their set of question kinds,
  so a question is generic in its kind `K`. Fresh ids, which the pages draw
  from `crypto.randomUUID`, are parameters.
*/
module Editor {
  import opened Wrappers
  import opened Text
  import opened Seqs
  import opened FormTypes

  datatype EditorOption = EditorOption(id: Id, text: string)

  datatype EditorQuestion<K> = EditorQuestion(id: Id, text: string, kind: K, options: seq<EditorOption>, required: bool)

  /** The page state the operations touch: the question list and the active (highlighted) question. */
  datatype EditorState<K> = EditorState(questions: seq<EditorQuestion<K>>, active: Option<Id>)

  function Ids<K>(qs: seq<EditorQuestion<K>>): (ids: seq<Id>)
    ensures |ids| == |qs| && forall k :: 0 <= k < |qs| ==> ids[k] == qs[k].id
  {
    seq(|qs|, k requires 0 <= k < |qs| => qs[k].id)
  }

  predicate FreshId<K>(qs: seq<EditorQuestion<K>>, id: Id) {
    forall k :: 0 <= k < |qs| ==> qs[k].id != id
  }

  predicate DistinctOptionIds(opts: seq<EditorOption>) {
    forall i, j :: 0 <= i < j < |opts| ==> opts[i].id != opts[j].id
  }

  function OptionTexts(opts: seq<EditorOption>): (texts: seq<string>)
    ensures |texts| == |opts| && forall k :: 0 <= k < |opts| ==> texts[k] == opts[k].text
  {
    seq(|opts|, k requires 0 <= k < |opts| => opts[k].text)
  }

  // ---------------------------------------------------------------- questions

  /** `addQuestion`: the new question goes last and becomes the active one. */
  function AppendQuestion<K>(st: EditorState<K>, q: EditorQuestion<K>): (r: EditorState<K>)
    ensures r.questions == st.questions + [q] && r.active == Some(q.id)
  {
    EditorState(st.questions + [q], Some(q.id))
  }

  /** `updateQuestion`: every question with the edited question's id is replaced by it. */
  function ReplaceById<K>(qs: seq<EditorQuestion<K>>, u: EditorQuestion<K>): (r: seq<EditorQuestion<K>>)
    ensures |r| == |qs|
    ensures forall k :: 0 <= k < |qs| ==> r[k] == if qs[k].id == u.id then u else qs[k]
  {
    seq(|qs|, k requires 0 <= k < |qs| => if qs[k].id == u.id then u else qs[k])
  }

  /** Replacing keeps the id list; repeating it changes nothing more; putting back an unchanged question is the identity. */
  lemma ReplaceLaws<K>(qs: seq<EditorQuestion<K>>, u: EditorQuestion<K>)
    ensures Ids(ReplaceById(qs, u)) == Ids(qs)
    ensures ReplaceById(ReplaceById(qs, u), u) == ReplaceById(qs, u)
    ensures (forall k :: 0 <= k < |qs| && qs[k].id == u.id ==> qs[k] == u) ==> ReplaceById(qs, u) == qs
  {
  }

  /** `findIndex`: the first position holding the id. */
  function FindIndex<K>(qs: seq<EditorQuestion<K>>, id: Id): (r: Option<nat>)
    ensures r.Some? ==> r.value < |qs| && qs[r.value].id == id && forall k :: 0 <= k < r.value ==> qs[k].id != id
    ensures r.None? <==> FreshId(qs, id)
    decreases |qs|
  {
    if |qs| == 0 then None
    else if qs[0].id == id then Some(0)
    else
      match FindIndex(qs[1..], id)
      case None => None
      case Some(i) => Some(i + 1)
  }

  /** The options with fresh ids and the same texts. */
  function RenewOptionIds(opts: seq<EditorOption>, ids: seq<Id>): (r: seq<EditorOption>)
    requires |ids| == |opts|
    ensures |r| == |opts|
    ensures forall k :: 0 <= k < |opts| ==> r[k].id == ids[k] && r[k].text == opts[k].text
  {
    seq(|opts|, k requires 0 <= k < |opts| => EditorOption(ids[k], opts[k].text))
  }

  /** A copy of a question under new question and option ids. */
  function CopyQuestion<K>(q: EditorQuestion<K>, newId: Id, optionIds: seq<Id>): (c: EditorQuestion<K>)
    requires |optionIds| == |q.options|
    ensures c.id == newId && c.text == q.text && c.kind == q.kind && c.required == q.required
    ensures OptionTexts(c.options) == OptionTexts(q.options)
    ensures forall k :: 0 <= k < |c.options| ==> c.options[k].id == optionIds[k]
  {
    q.(id := newId, options := RenewOptionIds(q.options, optionIds))
  }

  /** The option-id count a duplication needs: one per option of the question being copied. */
  predicate EnoughOptionIds<K>(qs: seq<EditorQuestion<K>>, id: Id, optionIds: seq<Id>) {
    FindIndex(qs, id).Some? ==> |optionIds| == |qs[FindIndex(qs, id).value].options|
  }

  /** `duplicateQuestion` on the list: a copy right after the first question with the id; an unknown id changes nothing. */
  function DuplicateAfter<K>(qs: seq<EditorQuestion<K>>, id: Id, newId: Id, optionIds: seq<Id>): (r: seq<EditorQuestion<K>>)
    requires EnoughOptionIds(qs, id, optionIds)
    ensures FreshId(qs, id) ==> r == qs
    ensures !FreshId(qs, id) ==> (
      var i := FindIndex(qs, id).value;
      && |r| == |qs| + 1
      && r[..i + 1] == qs[..i + 1]
      && r[i + 1] == CopyQuestion(qs[i], newId, optionIds)
      && r[i + 2..] == qs[i + 1..])
  {
    match FindIndex(qs, id)
    case None => qs
    case Some(i) => qs[..i + 1] + [CopyQuestion(qs[i], newId, optionIds)] + qs[i + 1..]
  }

  /** `duplicateQuestion` on the page: the copy becomes active; an unknown id leaves the page as it was. */
  function Duplicate<K>(st: EditorState<K>, id: Id, newId: Id, optionIds: seq<Id>): (r: EditorState<K>)
    requires EnoughOptionIds(st.questions, id, optionIds)
    ensures FreshId(st.questions, id) ==> r == st
    ensures !FreshId(st.questions, id) ==> r.active == Some(newId)
    ensures r.questions == DuplicateAfter(st.questions, id, newId, optionIds)
  {
    if FreshId(st.questions, id) then st
    else EditorState(DuplicateAfter(st.questions, id, newId, optionIds), Some(newId))
  }

  /**
    The Duplicate button as clicked on either page. The button sits inside
    the question's card, whose own click handler makes that question
    active, and the click is not stopped there: the card's update runs
    after the handler's, so the original, not the copy, ends up active.
  */
  function DuplicateButtonClick<K>(st: EditorState<K>, id: Id, newId: Id, optionIds: seq<Id>): (r: EditorState<K>)
    requires EnoughOptionIds(st.questions, id, optionIds)
    ensures r.questions == DuplicateAfter(st.questions, id, newId, optionIds)
    ensures r.active == Some(id)
    ensures !FreshId(st.questions, id) ==> !FreshId(r.questions, id)
  {
    var r := Duplicate(st, id, newId, optionIds).(active := Some(id));
    if FreshId(st.questions, id) then r
    else
      var i := FindIndex(st.questions, id).value;
      assert r.questions[i].id == id;
      r
  }

  function IdIsNot<K>(id: Id): EditorQuestion<K> -> bool {
    (q: EditorQuestion<K>) => q.id != id
  }

  /** The list without the questions carrying the id, otherwise in order. */
  function DeleteById<K>(qs: seq<EditorQuestion<K>>, id: Id): (r: seq<EditorQuestion<K>>)
    ensures FreshId(r, id)
    ensures forall k :: 0 <= k < |qs| && qs[k].id != id ==> qs[k] in r
    ensures forall k :: 0 <= k < |r| ==> r[k] in qs
  {
    Filter(qs, IdIsNot(id))
  }

  /** Deleting a fresh duplicate gives back the list it was made from. */
  lemma {:induction false} DuplicateThenDeleteRestores<K>(qs: seq<EditorQuestion<K>>, id: Id, newId: Id, optionIds: seq<Id>)
    requires EnoughOptionIds(qs, id, optionIds)
    requires FreshId(qs, newId)
    ensures DeleteById(DuplicateAfter(qs, id, newId, optionIds), newId) == qs
  {
    var p := IdIsNot<K>(newId);
    var r := DuplicateAfter(qs, id, newId, optionIds);
    if FindIndex(qs, id).None? {
      FilterAll(qs, p);
    } else {
      var i := FindIndex(qs, id).value;
      var a, b := qs[..i + 1], qs[i + 1..];
      var c := CopyQuestion(qs[i], newId, optionIds);
      DuplicateShape(qs, id, newId, optionIds, i);
      assert a + b == qs;
      FreshPartsKept(qs, a, b, newId);
      assert !p(c);
      FilterSkipsOne(a, c, b, p);
    }
  }

  /** Filtering out one rejected element between two kept parts joins the parts. */
  lemma {:induction false} FilterSkipsOne<T>(a: seq<T>, c: T, b: seq<T>, p: T -> bool)
    requires Filter(a, p) == a && Filter(b, p) == b && !p(c)
    ensures Filter((a + [c]) + b, p) == a + b
  {
    FilterSnoc(a, c, p);
    assert Filter(a + [c], p) == a by {
      assert Filter(a, p) + [] == a;
    }
    FilterConcat(a + [c], b, p);
  }

  lemma DuplicateShape<K>(qs: seq<EditorQuestion<K>>, id: Id, newId: Id, optionIds: seq<Id>, i: nat)
    requires EnoughOptionIds(qs, id, optionIds)
    requires FindIndex(qs, id) == Some(i)
    ensures DuplicateAfter(qs, id, newId, optionIds) == (qs[..i + 1] + [CopyQuestion(qs[i], newId, optionIds)]) + qs[i + 1..]
  {
  }

  lemma FreshPartsKept<K>(qs: seq<EditorQuestion<K>>, a: seq<EditorQuestion<K>>, b: seq<EditorQuestion<K>>, id: Id)
    requires FreshId(qs, id) && a + b == qs
    ensures Filter(a, IdIsNot(id)) == a && Filter(b, IdIsNot(id)) == b
  {
    assert forall k :: 0 <= k < |a| ==> a[k] == qs[k];
    assert forall k :: 0 <= k < |b| ==> b[k] == qs[|a| + k];
    FilterAll(a, IdIsNot(id));
    FilterAll(b, IdIsNot(id));
  }

  // ---------------------------------------------------------------- options

  /** `handleOptionChange`: only the option with the id takes the new text; count, order and ids stay. */
  function RenameOption<K>(q: EditorQuestion<K>, optionId: Id, text: string): (r: EditorQuestion<K>)
    ensures r == q.(options := r.options)
    ensures |r.options| == |q.options|
    ensures forall k :: 0 <= k < |q.options| ==>
      r.options[k].id == q.options[k].id
      && r.options[k].text == (if q.options[k].id == optionId then text else q.options[k].text)
  {
    q.(options := seq(|q.options|, k requires 0 <= k < |q.options| =>
                      if q.options[k].id == optionId then q.options[k].(text := text) else q.options[k]))
  }

  /** The caption of a new option: `Option <n>`. */
  function OptionLabel(n: nat): string {
    "Option " + NatToString(n)
  }

  /** `addOption`: one option appended, labelled with the new count. */
  function AddOption<K>(q: EditorQuestion<K>, newId: Id): (r: EditorQuestion<K>)
    ensures r == q.(options := r.options)
    ensures |r.options| == |q.options| + 1 && r.options[..|q.options|] == q.options
    ensures r.options[|q.options|] == EditorOption(newId, OptionLabel(|r.options|))
  {
    q.(options := q.options + [EditorOption(newId, OptionLabel(|q.options| + 1))])
  }

  /** The number in a new option's caption reads back as the option's 1-based position. */
  lemma AddedLabelCountsOptions<K>(q: EditorQuestion<K>, newId: Id)
    ensures var r := AddOption(q, newId);
      var caption := r.options[|r.options| - 1].text;
      |caption| > 7 && caption[..7] == "Option " && ParseNat(caption[7..]) == Some(|r.options|)
  {
    var caption := OptionLabel(|q.options| + 1);
    assert caption[7..] == NatToString(|q.options| + 1);
    ParseNatToString(|q.options| + 1);
  }

  function OptionIdIsNot(id: Id): EditorOption -> bool {
    (o: EditorOption) => o.id != id
  }

  /** `removeOption` without a guard: the options with the id are gone, the rest stay in order. */
  function RemoveOption<K>(q: EditorQuestion<K>, optionId: Id): (r: EditorQuestion<K>)
    ensures r == q.(options := r.options)
    ensures forall k :: 0 <= k < |r.options| ==> r.options[k].id != optionId && r.options[k] in q.options
    ensures forall k :: 0 <= k < |q.options| && q.options[k].id != optionId ==> q.options[k] in r.options
  {
    q.(options := Filter(q.options, OptionIdIsNot(optionId)))
  }

  /** `removeOption` with the minimum-one guard: a question with at most one option is left as it is. */
  function RemoveOptionGuarded<K>(q: EditorQuestion<K>, optionId: Id): (r: EditorQuestion<K>)
    ensures |q.options| <= 1 ==> r == q
    ensures |q.options| > 1 ==> r == RemoveOption(q, optionId)
  {
    if |q.options| <= 1 then q else RemoveOption(q, optionId)
  }

  /** With distinct option ids, the guarded removal never empties a question that has options. */
  lemma GuardedRemovalKeepsOne<K>(q: EditorQuestion<K>, optionId: Id)
    requires DistinctOptionIds(q.options)
    requires |q.options| >= 1
    ensures |RemoveOptionGuarded(q, optionId).options| >= 1
  {
    if |q.options| > 1 {
      var keep := if q.options[0].id != optionId then q.options[0] else q.options[1];
      assert keep in RemoveOption(q, optionId).options;
    }
  }

  /** Without the guard, removing the only option leaves none. */
  lemma UnguardedRemovalCanEmpty<K>(q: EditorQuestion<K>)
    requires |q.options| == 1
    ensures RemoveOption(q, q.options[0].id).options == []
  {
    FilterNone(q.options, OptionIdIsNot(q.options[0].id));
  }
}
