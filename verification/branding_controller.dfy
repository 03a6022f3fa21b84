/**
  The branding endpoints (`backend/src/controllers/brandingController.js`):
  reading a form's branding with its fixed defaults, the owner-only upsert
  of the style fields, and the logo upload. Branding rows are keyed by
  `form_id`: an upsert updates the form's row when there is one and inserts
  one otherwise.

  The file as shipped uses the database client and the id generator without
  importing them; the model follows the evident logic of each endpoint.
*/
module BrandingController {
  import opened Wrappers
  import opened Text
  import opened Seqs
  import opened FormTypes
  import opened Store
  import UploadMiddleware

  /** The record served for a form without branding: eleven fields, no logo and no custom CSS. */
  const DefaultStyle: BrandingStyle := BrandingStyle(
    primary_color := Some("#000000"),
    secondary_color := Some("#ffffff"),
    background_color := Some("#ffffff"),
    text_color := Some("#000000"),
    button_color := Some("#000000"),
    button_text_color := Some("#ffffff"),
    logo_url := None,
    logo_storage_path := None,
    logo_position := None,
    font_family := Some("Inter"),
    heading_font_size := Some(24),
    body_font_size := Some(16),
    form_width := Some("medium"),
    border_radius := Some(8),
    custom_css := None)

  /** A style with no field set: the empty patch. */
  const NoStyle: BrandingStyle :=
    BrandingStyle(None, None, None, None, None, None, None, None, None, None, None, None, None, None, None)

  /** The number of fields a style sets. */
  function SetFields(s: BrandingStyle): nat {
    (if s.primary_color.Some? then 1 else 0) + (if s.secondary_color.Some? then 1 else 0)
    + (if s.background_color.Some? then 1 else 0) + (if s.text_color.Some? then 1 else 0)
    + (if s.button_color.Some? then 1 else 0) + (if s.button_text_color.Some? then 1 else 0)
    + (if s.logo_url.Some? then 1 else 0) + (if s.logo_storage_path.Some? then 1 else 0)
    + (if s.logo_position.Some? then 1 else 0) + (if s.font_family.Some? then 1 else 0)
    + (if s.heading_font_size.Some? then 1 else 0) + (if s.body_font_size.Some? then 1 else 0)
    + (if s.form_width.Some? then 1 else 0) + (if s.border_radius.Some? then 1 else 0)
    + (if s.custom_css.Some? then 1 else 0)
  }

  /** The defaults set eleven fields, none of them the logo or the custom CSS, and name a declared width. */
  lemma DefaultsShape()
    ensures SetFields(DefaultStyle) == 11
    ensures DefaultStyle.logo_url.None? && DefaultStyle.logo_storage_path.None? && DefaultStyle.custom_css.None?
    ensures DefaultStyle.form_width == Some(FormWidthTag(Medium))
    ensures SetFields(NoStyle) == 0
  {
  }

  // ---------------------------------------------------------------- getFormBranding

  function BrandingOfForm(formId: Id): FormBranding -> bool {
    (b: FormBranding) => b.form_id == formId
  }

  /** What the read endpoint serves: the stored record, or the defaults. */
  datatype BrandingView = Stored(record: FormBranding) | Defaults(style: BrandingStyle)

  /**
    `getFormBranding`: the form's row read with `.single()`. The "not
    exactly one row" error is answered with the defaults; any other lookup
    failure (`lookupFailed`) is a 500. No authentication.
  */
  function GetFormBranding(db: Db, formId: Id, lookupFailed: bool): (r: Reply<BrandingView>)
    ensures lookupFailed ==> r == Failure(StatusServerError)
    ensures !lookupFailed ==> r.Success? && r.status == StatusOk
    ensures r.Success? && r.value.Stored? ==> r.value.record in db.branding && r.value.record.form_id == formId
    ensures r.Success? ==> (r.value.Defaults? <==> |Filter(db.branding, BrandingOfForm(formId))| != 1)
    ensures r.Success? && r.value.Defaults? ==> r.value.style == DefaultStyle
  {
    if lookupFailed then Failure(StatusServerError)
    else
      match Single(Filter(db.branding, BrandingOfForm(formId)))
      case None => Success(StatusOk, Defaults(DefaultStyle))
      case Some(b) => Success(StatusOk, Stored(b))
  }

  // ---------------------------------------------------------------- upsert

  function Pick<T>(patch: Option<T>, current: Option<T>): Option<T> {
    if patch.Some? then patch else current
  }

  /**
    An upsert onto an existing row: the fields the request carries replace
    the stored ones, and the fields it leaves out (absent from the JSON
    body) keep their values.
  */
  function Merge(current: BrandingStyle, patch: BrandingStyle): (s: BrandingStyle)
    ensures patch.primary_color.Some? ==> s.primary_color == patch.primary_color
    ensures patch.primary_color.None? ==> s.primary_color == current.primary_color
    ensures patch.logo_url.Some? ==> s.logo_url == patch.logo_url
    ensures patch.logo_url.None? ==> s.logo_url == current.logo_url
  {
    BrandingStyle(
      Pick(patch.primary_color, current.primary_color),
      Pick(patch.secondary_color, current.secondary_color),
      Pick(patch.background_color, current.background_color),
      Pick(patch.text_color, current.text_color),
      Pick(patch.button_color, current.button_color),
      Pick(patch.button_text_color, current.button_text_color),
      Pick(patch.logo_url, current.logo_url),
      Pick(patch.logo_storage_path, current.logo_storage_path),
      Pick(patch.logo_position, current.logo_position),
      Pick(patch.font_family, current.font_family),
      Pick(patch.heading_font_size, current.heading_font_size),
      Pick(patch.body_font_size, current.body_font_size),
      Pick(patch.form_width, current.form_width),
      Pick(patch.border_radius, current.border_radius),
      Pick(patch.custom_css, current.custom_css))
  }

  /** The empty patch changes nothing, a repeated patch changes nothing more, and a full patch replaces everything. */
  lemma MergeLaws(current: BrandingStyle, patch: BrandingStyle)
    ensures Merge(current, NoStyle) == current
    ensures Merge(Merge(current, patch), patch) == Merge(current, patch)
    ensures SetFields(patch) == 15 ==> Merge(current, patch) == patch
  {
  }

  /** At most one branding row per form: the property the conflict key keeps. */
  predicate OnePerForm(rows: seq<FormBranding>) {
    forall i, j :: 0 <= i < j < |rows| ==> rows[i].form_id != rows[j].form_id
  }

  predicate HasBranding(rows: seq<FormBranding>, formId: Id) {
    exists k :: 0 <= k < |rows| && rows[k].form_id == formId
  }

  function Restyle(patch: BrandingStyle, now: int): FormBranding -> FormBranding {
    (b: FormBranding) => FormBranding(b.form_id, Merge(b.style, patch), now)
  }

  /** `upsert(..., { onConflict: "form_id" })`: update the form's row, or insert a new one. */
  function Upsert(rows: seq<FormBranding>, formId: Id, patch: BrandingStyle, now: int): (r: seq<FormBranding>)
    ensures HasBranding(rows, formId) ==> |r| == |rows|
    ensures !HasBranding(rows, formId) ==> r == rows + [FormBranding(formId, patch, now)]
    ensures forall k :: 0 <= k < |rows| && rows[k].form_id != formId ==> r[k] == rows[k]
  {
    if HasBranding(rows, formId) then Update(rows, BrandingOfForm(formId), Restyle(patch, now))
    else rows + [FormBranding(formId, patch, now)]
  }

  /** The record an upsert leaves for the form: the merged row, or the new row. */
  function Upserted(rows: seq<FormBranding>, formId: Id, patch: BrandingStyle, now: int): FormBranding
    requires OnePerForm(rows)
  {
    if HasBranding(rows, formId) then
      var k :| 0 <= k < |rows| && rows[k].form_id == formId;
      FormBranding(formId, Merge(rows[k].style, patch), now)
    else FormBranding(formId, patch, now)
  }

  /** An upsert keeps one row per form, and afterwards the form's single row is the upserted record. */
  lemma UpsertKeepsOnePerForm(rows: seq<FormBranding>, formId: Id, patch: BrandingStyle, now: int)
    requires OnePerForm(rows)
    ensures OnePerForm(Upsert(rows, formId, patch, now))
    ensures Filter(Upsert(rows, formId, patch, now), BrandingOfForm(formId)) == [Upserted(rows, formId, patch, now)]
  {
    UpsertKeepsKeys(rows, formId, patch, now);
    UpsertedRowFound(rows, formId, patch, now);
  }

  /** An upsert keeps the keys of the existing rows, and adds the form's key only when it was missing. */
  lemma UpsertKeepsKeys(rows: seq<FormBranding>, formId: Id, patch: BrandingStyle, now: int)
    requires OnePerForm(rows)
    ensures OnePerForm(Upsert(rows, formId, patch, now))
  {
    var r := Upsert(rows, formId, patch, now);
    if HasBranding(rows, formId) {
      assert forall i :: 0 <= i < |rows| ==> r[i].form_id == rows[i].form_id;
    }
  }

  lemma {:induction false} UpsertedRowFound(rows: seq<FormBranding>, formId: Id, patch: BrandingStyle, now: int)
    requires OnePerForm(rows)
    ensures Filter(Upsert(rows, formId, patch, now), BrandingOfForm(formId)) == [Upserted(rows, formId, patch, now)]
  {
    if HasBranding(rows, formId) {
      var k :| 0 <= k < |rows| && rows[k].form_id == formId;
      FilterUnique(rows, BrandingOfForm(formId), k);
      FilterUpdate(rows, BrandingOfForm(formId), Restyle(patch, now));
      assert Map([rows[k]], Restyle(patch, now)) == [Restyle(patch, now)(rows[k])];
    } else {
      FilterSnoc(rows, FormBranding(formId, patch, now), BrandingOfForm(formId));
      FilterNone(rows, BrandingOfForm(formId));
    }
  }

  // ---------------------------------------------------------------- updateFormBranding

  /**
    `updateFormBranding`: 403 unless the caller owns the form; otherwise the
    fifteen style fields of the body, unchecked, are upserted under the
    form's id with the current time.
  */
  function UpdateFormBranding(db: Db, user: Id, formId: Id, body: BrandingStyle, now: int): (h: Handled<FormBranding>)
    requires OnePerForm(db.branding)
    ensures h.reply.Success? <==> Owns(db, user, formId)
    ensures h.reply.Failure? ==> h.reply.status == StatusForbidden && h.db == db
    ensures h.reply.Success? ==> (h.reply.status == StatusOk
      && h.db == db.(branding := Upsert(db.branding, formId, body, now))
      && h.reply.value == Upserted(db.branding, formId, body, now)
      && h.reply.value.form_id == formId && h.reply.value.updated_at == now
      && OnePerForm(h.db.branding))
  {
    if !Owns(db, user, formId) then Handled(Failure(StatusForbidden), db)
    else
      UpsertKeepsOnePerForm(db.branding, formId, body, now);
      Handled(Success(StatusOk, Upserted(db.branding, formId, body, now)),
              db.(branding := Upsert(db.branding, formId, body, now)))
  }

  /** After an update, reading the form's branding serves the stored record, whose set fields are the body's. */
  lemma UpdatedBrandingReadsBack(db: Db, user: Id, formId: Id, body: BrandingStyle, now: int)
    requires OnePerForm(db.branding)
    requires Owns(db, user, formId)
    ensures var h := UpdateFormBranding(db, user, formId, body, now);
      && GetFormBranding(h.db, formId, false) == Success(StatusOk, Stored(h.reply.value))
      && Merge(h.reply.value.style, body) == h.reply.value.style
  {
    UpsertKeepsOnePerForm(db.branding, formId, body, now);
  }

  // ---------------------------------------------------------------- uploadLogo

  /** What the logo endpoint answers: the logo's public URL and the upserted record. */
  datatype LogoUpload = LogoUpload(logo_url: string, branding: FormBranding)

  /** The patch a logo upload applies: only the two logo fields. */
  function LogoPatch(url: string, path: string): (s: BrandingStyle)
    ensures SetFields(s) == 2
  {
    NoStyle.(logo_url := Some(url), logo_storage_path := Some(path))
  }

  /**
    `uploadLogo`, after the middleware: 403 unless the caller owns the form
    (checked before the file), 400 without a file; otherwise the file is
    stored under `<user>/<form>/logo_<stem>.<ext>` and only the two logo
    fields of the form's branding are upserted.
  */
  function UploadLogo(db: Db, user: Id, formId: Id, file: Option<FileInfo>, stem: string,
                      urlOf: string -> string, now: int): (h: Handled<LogoUpload>)
    requires OnePerForm(db.branding)
    ensures !Owns(db, user, formId) ==> h == Handled(Failure(StatusForbidden), db)
    ensures Owns(db, user, formId) && file.None? ==> h == Handled(Failure(StatusBadRequest), db)
    ensures h.reply.Success? <==> Owns(db, user, formId) && file.Some?
    ensures h.reply.Success? ==> (
      var path := StoragePath(user, formId, "logo_" + stem, file.value.name);
      && h.reply.status == StatusOk
      && h.reply.value.logo_url == urlOf(path)
      && h.reply.value.branding.style.logo_url == Some(urlOf(path))
      && h.reply.value.branding.style.logo_storage_path == Some(path)
      && h.reply.value.branding == Upserted(db.branding, formId, LogoPatch(urlOf(path), path), now)
      && h.db == db.(branding := Upsert(db.branding, formId, LogoPatch(urlOf(path), path), now))
      && OnePerForm(h.db.branding))
  {
    if !Owns(db, user, formId) then Handled(Failure(StatusForbidden), db)
    else if file.None? then Handled(Failure(StatusBadRequest), db)
    else
      var path := StoragePath(user, formId, "logo_" + stem, file.value.name);
      var patch := LogoPatch(urlOf(path), path);
      UpsertKeepsOnePerForm(db.branding, formId, patch, now);
      Handled(Success(StatusOk, LogoUpload(urlOf(path), Upserted(db.branding, formId, patch, now))),
              db.(branding := Upsert(db.branding, formId, patch, now)))
  }

  /** A logo upload keeps every other style field of an existing record. */
  lemma LogoKeepsTheme(db: Db, user: Id, formId: Id, file: FileInfo, stem: string,
                       urlOf: string -> string, now: int, k: int)
    requires OnePerForm(db.branding)
    requires Owns(db, user, formId)
    requires 0 <= k < |db.branding| && db.branding[k].form_id == formId
    ensures var s := UploadLogo(db, user, formId, Some(file), stem, urlOf, now).reply.value.branding.style;
      s == db.branding[k].style.(logo_url := s.logo_url, logo_storage_path := s.logo_storage_path)
  {
    var path := StoragePath(user, formId, "logo_" + stem, file.name);
    UpsertedMerges(db.branding, formId, LogoPatch(urlOf(path), path), now, k);
    MergeLogoPatch(db.branding[k].style, urlOf(path), path);
  }

  /** The record an upsert leaves for a form that had one is the old style merged with the patch. */
  lemma UpsertedMerges(rows: seq<FormBranding>, formId: Id, patch: BrandingStyle, now: int, k: int)
    requires OnePerForm(rows)
    requires 0 <= k < |rows| && rows[k].form_id == formId
    ensures Upserted(rows, formId, patch, now) == FormBranding(formId, Merge(rows[k].style, patch), now)
  {
    assert HasBranding(rows, formId);
  }

  /** Merging a logo patch replaces the two logo fields and nothing else. */
  lemma MergeLogoPatch(current: BrandingStyle, url: string, path: string)
    ensures Merge(current, LogoPatch(url, path)) == current.(logo_url := Some(url), logo_storage_path := Some(path))
  {
  }

  /** The logo path's last segment is the logo stem followed by the original extension. */
  lemma LogoPathNamesLogo(user: Id, formId: Id, stem: string, name: string)
    requires '/' !in user && '/' !in formId && '/' !in stem && '/' !in name
    ensures Split(StoragePath(user, formId, "logo_" + stem, name), '/')
         == [user, formId, "logo_" + stem + "." + LastSegment(name, '.')]
  {
    assert '/' !in "logo_" + stem;
    StoragePathParts(user, formId, "logo_" + stem, name);
  }

  /** The logo request as routed: a file the middleware, as written, refuses becomes a 500 before the endpoint runs. */
  function UploadLogoRequest(db: Db, user: Id, formId: Id, file: Option<FileInfo>, stem: string,
                             urlOf: string -> string, now: int): (h: Handled<LogoUpload>)
    requires OnePerForm(db.branding)
    ensures file.Some? && UploadMiddleware.CheckFileAsWritten(file.value) != UploadMiddleware.Accept
      ==> h == Handled(Failure(StatusServerError), db)
    ensures file.None? || UploadMiddleware.CheckFileAsWritten(file.value) == UploadMiddleware.Accept
      ==> h == UploadLogo(db, user, formId, file, stem, urlOf, now)
  {
    if file.Some? && UploadMiddleware.CheckFileAsWritten(file.value) != UploadMiddleware.Accept then
      Handled(Failure(StatusServerError), db)
    else UploadLogo(db, user, formId, file, stem, urlOf, now)
  }

  /** The same route behind the corrected type test. */
  function UploadLogoRequestCorrected(db: Db, user: Id, formId: Id, file: Option<FileInfo>, stem: string,
                                      urlOf: string -> string, now: int): (h: Handled<LogoUpload>)
    requires OnePerForm(db.branding)
    ensures file.Some? && UploadMiddleware.CheckFile(file.value) != UploadMiddleware.Accept
      ==> h == Handled(Failure(StatusServerError), db)
    ensures file.None? || UploadMiddleware.CheckFile(file.value) == UploadMiddleware.Accept
      ==> h == UploadLogo(db, user, formId, file, stem, urlOf, now)
  {
    if file.Some? && UploadMiddleware.CheckFile(file.value) != UploadMiddleware.Accept then
      Handled(Failure(StatusServerError), db)
    else UploadLogo(db, user, formId, file, stem, urlOf, now)
  }

  /**
    The owner's PNG logo sent as `application/octet-stream`: as routed it
    gets 500 and the branding is untouched; behind the corrected test it
    is stored with 200.
  */
  lemma OctetStreamLogoRefused(db: Db, user: Id, formId: Id, stem: string, urlOf: string -> string, now: int)
    requires OnePerForm(db.branding)
    requires Owns(db, user, formId)
    ensures var file := Some(FileInfo("logo.png", "application/octet-stream", 5));
      && UploadLogoRequest(db, user, formId, file, stem, urlOf, now) == Handled(Failure(StatusServerError), db)
      && UploadLogoRequestCorrected(db, user, formId, file, stem, urlOf, now).reply.Success?
      && UploadLogoRequestCorrected(db, user, formId, file, stem, urlOf, now).reply.status == StatusOk
  {
    UploadMiddleware.OctetStreamLogoRejectedAsWritten();
  }
}
