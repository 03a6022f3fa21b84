/**
  The form-media endpoints (`backend/src/controllers/mediaController.js`)
  and the request path of an upload through the upload middleware
  (`backend/src/routes/mediaRoutes.js`). The blob store itself is not
  modelled: the stored object's public URL is a function of its path,
  given as a parameter.
*/
module MediaController {
  import opened Wrappers
  import opened Text
  import opened Seqs
  import opened FormTypes
  import opened Store
  import UploadMiddleware

  /** `uploadFormMedia`'s body fields: the question the media is attached to, and where it is shown. */
  datatype MediaFields = MediaFields(question_id: Option<string>, position: Option<string>)

  /** The media kind recorded for a MIME type: video for `video/…`, image for everything else. */
  function KindOf(mime: string): (m: MediaType)
    ensures m == Video <==> StartsWith(mime, "video/")
    ensures m != Logo
  {
    if StartsWith(mime, "video/") then Video else Image
  }

  /**
    `uploadFormMedia`, after the middleware: 403 unless the caller owns the
    form (checked before the file), 400 without a file; otherwise the file
    is stored under `<user>/<form>/<stem>.<ext>` and a media row recording
    it is inserted. An empty question id is stored as null and a missing
    or empty position as `top`.
  */
  function UploadFormMedia(db: Db, user: Id, formId: Id, file: Option<FileInfo>, fields: MediaFields,
                           newId: Id, stem: string, urlOf: string -> string, now: int): (h: Handled<FormMedia>)
    ensures !Owns(db, user, formId) ==> h == Handled(Failure(StatusForbidden), db)
    ensures Owns(db, user, formId) && file.None? ==> h == Handled(Failure(StatusBadRequest), db)
    ensures h.reply.Success? <==> Owns(db, user, formId) && file.Some?
    ensures h.reply.Success? ==> (
      var m := h.reply.value;
      && h.reply.status == StatusCreated
      && h.db == db.(media := db.media + [m])
      && m.id == newId && m.form_id == formId && m.created_at == now
      && m.storage_path == StoragePath(user, formId, stem, file.value.name)
      && m.media_url == urlOf(m.storage_path)
      && m.media_type == KindOf(file.value.mime)
      && m.file_name == file.value.name && m.file_size == file.value.size && m.mime_type == file.value.mime
      && (m.question_id.Some? <==> Filled(fields.question_id))
      && (m.question_id.Some? ==> m.question_id == fields.question_id)
      && m.position == (if Filled(fields.position) then fields.position.value else "top"))
  {
    if !Owns(db, user, formId) then Handled(Failure(StatusForbidden), db)
    else if file.None? then Handled(Failure(StatusBadRequest), db)
    else
      var f := file.value;
      var path := StoragePath(user, formId, stem, f.name);
      var m := FormMedia(newId, formId, if Filled(fields.question_id) then fields.question_id else None,
                         KindOf(f.mime), urlOf(path), path, f.name, f.size, f.mime,
                         if Filled(fields.position) then fields.position.value else "top", now);
      Handled(Success(StatusCreated, m), db.(media := db.media + [m]))
  }

  /**
    The upload request as routed: the middleware, with its type test as
    written, sees the file first, and a file it refuses becomes a 500 from
    the error handler before the endpoint runs.
  */
  function UploadMediaRequest(db: Db, user: Id, formId: Id, file: Option<FileInfo>, fields: MediaFields,
                              newId: Id, stem: string, urlOf: string -> string, now: int): (h: Handled<FormMedia>)
    ensures file.Some? && UploadMiddleware.CheckFileAsWritten(file.value) != UploadMiddleware.Accept
      ==> h == Handled(Failure(StatusServerError), db)
    ensures file.None? || UploadMiddleware.CheckFileAsWritten(file.value) == UploadMiddleware.Accept
      ==> h == UploadFormMedia(db, user, formId, file, fields, newId, stem, urlOf, now)
  {
    if file.Some? && UploadMiddleware.CheckFileAsWritten(file.value) != UploadMiddleware.Accept then
      Handled(Failure(StatusServerError), db)
    else UploadFormMedia(db, user, formId, file, fields, newId, stem, urlOf, now)
  }

  /** The same route behind the corrected type test. */
  function UploadMediaRequestCorrected(db: Db, user: Id, formId: Id, file: Option<FileInfo>, fields: MediaFields,
                                       newId: Id, stem: string, urlOf: string -> string, now: int): (h: Handled<FormMedia>)
    ensures file.Some? && UploadMiddleware.CheckFile(file.value) != UploadMiddleware.Accept
      ==> h == Handled(Failure(StatusServerError), db)
    ensures file.None? || UploadMiddleware.CheckFile(file.value) == UploadMiddleware.Accept
      ==> h == UploadFormMedia(db, user, formId, file, fields, newId, stem, urlOf, now)
  {
    if file.Some? && UploadMiddleware.CheckFile(file.value) != UploadMiddleware.Accept then
      Handled(Failure(StatusServerError), db)
    else UploadFormMedia(db, user, formId, file, fields, newId, stem, urlOf, now)
  }

  /**
    The owner's plain-text upload: as routed it gets 500 and nothing is
    stored; behind the corrected test it is stored with 201.
  */
  lemma PlainTextUploadRefused(db: Db, user: Id, formId: Id, fields: MediaFields,
                               newId: Id, stem: string, urlOf: string -> string, now: int)
    requires Owns(db, user, formId)
    ensures var file := Some(FileInfo("notes.txt", "text/plain", 5));
      && UploadMediaRequest(db, user, formId, file, fields, newId, stem, urlOf, now) == Handled(Failure(StatusServerError), db)
      && UploadMediaRequestCorrected(db, user, formId, file, fields, newId, stem, urlOf, now).reply.Success?
      && UploadMediaRequestCorrected(db, user, formId, file, fields, newId, stem, urlOf, now).reply.status == StatusCreated
  {
    UploadMiddleware.TextFileRejectedAsWritten();
  }

  /** A refused file gets 500 even from a caller who does not own the form: the middleware runs first. */
  lemma RefusedFileBeatsOwnership(db: Db, user: Id, formId: Id, file: FileInfo, fields: MediaFields,
                                  newId: Id, stem: string, urlOf: string -> string, now: int)
    requires !Owns(db, user, formId)
    requires file.size > UploadMiddleware.MaxFileSize
    ensures UploadMediaRequest(db, user, formId, Some(file), fields, newId, stem, urlOf, now).reply
         == Failure(StatusServerError)
    ensures UploadFormMedia(db, user, formId, Some(file), fields, newId, stem, urlOf, now).reply
         == Failure(StatusForbidden)
  {
  }

  function MediaInForm(formId: Id): FormMedia -> bool {
    (m: FormMedia) => m.form_id == formId
  }

  function MediaCreatedAt(m: FormMedia): int {
    m.created_at
  }

  /** `getFormMedia`: every media row of the form, oldest first; no authentication. */
  function GetFormMedia(db: Db, formId: Id): (r: Reply<seq<FormMedia>>)
    ensures r.Success? && r.status == StatusOk
    ensures forall i, j :: 0 <= i < j < |r.value| ==> r.value[i].created_at <= r.value[j].created_at
    ensures forall i :: 0 <= i < |r.value| ==> r.value[i].form_id == formId && r.value[i] in db.media
    ensures forall k :: 0 <= k < |db.media| && db.media[k].form_id == formId ==> db.media[k] in r.value
    ensures multiset(r.value) == multiset(Filter(db.media, MediaInForm(formId)))
  {
    var mine := Filter(db.media, MediaInForm(formId));
    var sorted := SortBy(mine, MediaCreatedAt);
    PermutationMembers(sorted, mine);
    PermutationMembers(mine, sorted);
    Success(StatusOk, sorted)
  }

  /** Uploaded media is listed for its form. */
  lemma UploadedMediaListed(db: Db, user: Id, formId: Id, file: Option<FileInfo>, fields: MediaFields,
                            newId: Id, stem: string, urlOf: string -> string, now: int)
    requires UploadFormMedia(db, user, formId, file, fields, newId, stem, urlOf, now).reply.Success?
    ensures var h := UploadFormMedia(db, user, formId, file, fields, newId, stem, urlOf, now);
      h.reply.value in GetFormMedia(h.db, formId).value
  {
    var h := UploadFormMedia(db, user, formId, file, fields, newId, stem, urlOf, now);
    assert h.db.media[|db.media|] == h.reply.value;
  }

  /** A media row matching the id whose form exists: the rows an inner join with `forms` keeps. */
  function JoinableMedia(db: Db, mediaId: Id): FormMedia -> bool {
    (m: FormMedia) => m.id == mediaId && FormById(db, m.form_id).Some?
  }

  /** The media row with this id read through the inner join, with `.single()`. */
  function MediaById(db: Db, mediaId: Id): (m: Option<FormMedia>)
    ensures m.Some? ==> m.value in db.media && m.value.id == mediaId && FormById(db, m.value.form_id).Some?
  {
    Single(Filter(db.media, JoinableMedia(db, mediaId)))
  }

  /**
    `deleteFormMedia`: 404 when the media (or its form) is missing, 403 when
    the caller does not own the form; otherwise the row is deleted. A
    failure to remove the stored object is only logged, so it does not
    change the outcome.
  */
  function DeleteFormMedia(db: Db, user: Id, mediaId: Id): (h: Handled<Ack>)
    ensures MediaById(db, mediaId).None? ==> h == Handled(Failure(StatusNotFound), db)
    ensures h.reply.Success? <==> (MediaById(db, mediaId).Some?
      && FormById(db, MediaById(db, mediaId).value.form_id).value.created_by == user)
    ensures h.reply.Failure? && MediaById(db, mediaId).Some? ==> h == Handled(Failure(StatusForbidden), db)
    ensures h.reply.Success? ==> (h.reply.status == StatusOk
      && (forall k :: 0 <= k < |h.db.media| ==> h.db.media[k].id != mediaId)
      && (forall k :: 0 <= k < |db.media| && db.media[k].id != mediaId ==> db.media[k] in h.db.media)
      && h.db == db.(media := h.db.media))
  {
    match MediaById(db, mediaId)
    case None => Handled(Failure(StatusNotFound), db)
    case Some(m) =>
      if FormById(db, m.form_id).value.created_by != user then Handled(Failure(StatusForbidden), db)
      else Handled(Success(StatusOk, Ack), db.(media := Filter(db.media, (x: FormMedia) => x.id != mediaId)))
  }

  /** Deleted media is no longer listed for any form. */
  lemma DeletedMediaUnlisted(db: Db, user: Id, mediaId: Id, formId: Id)
    requires DeleteFormMedia(db, user, mediaId).reply.Success?
    ensures forall m :: m in GetFormMedia(DeleteFormMedia(db, user, mediaId).db, formId).value ==> m.id != mediaId
  {
  }
}
