/**
  The backend's view of the managed database and blob store, shared by the
  controllers under `backend/src/controllers/`: the tables as sequences of
  rows in insertion order, the `.single()` lookup, the ownership test every
  owner-only endpoint performs, the HTTP replies, and the blob-store path
  naming of uploads.
*/
module Store {
  import opened Wrappers
  import opened Text
  import opened Seqs
  import opened FormTypes

  const StatusOk: nat := 200
  const StatusCreated: nat := 201
  const StatusBadRequest: nat := 400
  const StatusForbidden: nat := 403
  const StatusNotFound: nat := 404
  const StatusServerError: nat := 500

  /** An HTTP reply: a success status with its body, or an error status (the error text is not modelled). */
  datatype Reply<T> = Success(status: nat, value: T) | Failure(status: nat)

  /** A stored question row; its options live in their own table. */
  datatype QuestionRow = QuestionRow(
    id: Id,
    form_id: Id,
    question_text: string,
    question_type: string,
    is_required: bool,
    order_index: int)

  datatype ResponseRow = ResponseRow(id: Id, form_id: Id, submitted_at: int)

  /** A stored answer row; the file columns are never written by the server, so they are not kept. */
  datatype AnswerRow = AnswerRow(
    id: Id,
    response_id: Id,
    question_id: Id,
    answer_text: Option<string>,
    selected_options: Option<seq<Id>>)

  /** The database: one sequence of rows per table. */
  datatype Db = Db(
    forms: seq<Form>,
    questions: seq<QuestionRow>,
    options: seq<QuestionOption>,
    responses: seq<ResponseRow>,
    answers: seq<AnswerRow>,
    media: seq<FormMedia>,
    branding: seq<FormBranding>)

  /** The body of a reply that only carries a confirmation message. */
  datatype Ack = Ack

  const EmptyDb: Db := Db([], [], [], [], [], [], [])

  /** A reply together with the database after the request. */
  datatype Handled<T> = Handled(reply: Reply<T>, db: Db)

  /** `.single()`: the row when exactly one matches; no row and several rows are both an error. */
  function Single<T>(rows: seq<T>): (r: Option<T>)
    ensures r.Some? <==> |rows| == 1
    ensures r.Some? ==> r.value == rows[0]
  {
    if |rows| == 1 then Some(rows[0]) else None
  }

  /** The form with this id, read with `.single()`. */
  function FormById(db: Db, id: Id): (f: Option<Form>)
    ensures f.Some? ==> f.value in db.forms && f.value.id == id
  {
    Single(Filter(db.forms, FormIdIs(id)))
  }

  function FormIdIs(id: Id): Form -> bool {
    (f: Form) => f.id == id
  }

  /** The ownership test: the form is found and was created by the caller. */
  predicate Owns(db: Db, user: Id, formId: Id) {
    FormById(db, formId).Some? && FormById(db, formId).value.created_by == user
  }

  /** The question with this id, read with `.single()`. */
  function QuestionById(db: Db, id: Id): (q: Option<QuestionRow>)
    ensures q.Some? ==> q.value in db.questions && q.value.id == id
  {
    Single(Filter(db.questions, QuestionIdIs(id)))
  }

  function QuestionIdIs(id: Id): QuestionRow -> bool {
    (q: QuestionRow) => q.id == id
  }

  /** No form row carries this id. */
  predicate FreshFormId(db: Db, id: Id) {
    forall k :: 0 <= k < |db.forms| ==> db.forms[k].id != id
  }

  /** After appending a form with a fresh id, looking that id up finds exactly the new form. */
  lemma {:induction false} FindsAppendedForm(db: Db, f: Form)
    requires FreshFormId(db, f.id)
    ensures FormById(db.(forms := db.forms + [f]), f.id) == Some(f)
  {
    FilterSnoc(db.forms, f, FormIdIs(f.id));
    FilterNone(db.forms, FormIdIs(f.id));
  }

  /**
    The blob-store path of an upload, `<user>/<form>/<stem>.<ext>`, where
    `ext` is what `split(".").pop()` gives for the original file name: the
    text after its last dot, or the whole name when it has none.
  */
  function StoragePath(user: Id, formId: Id, stem: string, originalName: string): (path: string)
    ensures LastSegment(path, '.') == LastSegment(originalName, '.')
  {
    var ext := LastSegment(originalName, '.');
    LastSegmentIsSuffix(originalName, '.');
    LastSegmentAfterPrefix(user + "/" + formId + "/" + stem, ext, '.');
    user + "/" + formId + "/" + stem + "." + ext
  }

  /** With slash-free components, the path's three directory levels are the user, the form and the file. */
  lemma {:induction false} StoragePathParts(user: Id, formId: Id, stem: string, originalName: string)
    requires '/' !in user && '/' !in formId && '/' !in stem && '/' !in originalName
    ensures Split(StoragePath(user, formId, stem, originalName), '/')
      == [user, formId, stem + "." + LastSegment(originalName, '.')]
  {
    var file := stem + "." + LastSegment(originalName, '.');
    ExtensionHasNoSlash(originalName);
    assert '/' !in file;
    JoinThree(user, formId, file, '/');
    assert user + "/" + formId + "/" + file == StoragePath(user, formId, stem, originalName);
    SplitJoin([user, formId, file], '/');
  }

  /** The extension is a suffix of a slash-free name, so it is slash-free too. */
  lemma {:induction false} ExtensionHasNoSlash(originalName: string)
    requires '/' !in originalName
    ensures '/' !in LastSegment(originalName, '.')
  {
    var ext := LastSegment(originalName, '.');
    LastSegmentIsSuffix(originalName, '.');
    forall i | 0 <= i < |ext| ensures ext[i] != '/' {
      assert ext[i] == originalName[|originalName| - |ext| + i];
    }
  }

  lemma {:induction false} JoinThree(a: string, b: string, c: string, sep: char)
    ensures Join([a, b, c], sep) == a + [sep] + b + [sep] + c
  {
    var parts := [a, b, c];
    assert parts[1..][1..] == parts[2..] == [c];
    assert Join(parts[2..], sep) == c;
  }
}
