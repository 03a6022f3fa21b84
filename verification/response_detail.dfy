/**
  The single-response page (`frontend/src/features/responses/ResponseDetail.tsx`):
  the choice of view for each stored answer and the type badge above it.
  The view is selected by a priority ladder on the joined question's type
  first and on the populated fields second.
*/
module ResponseDetail {
  import opened Wrappers
  import opened Text
  import opened Seqs
  import opened FormTypes
  import QuestionTypes

  /** The view drawn for one answer. */
  datatype View =
    | FileCard(url: string, name: Option<string>, knownSize: Option<int>)
    | SignatureImage(url: string)
    | Stars(filled: seq<bool>, rating: Option<nat>)
    | ScaleText(value: Option<string>)
    | ExternalLink(href: string)
    | MailLink(href: string, shown: string)
    | TelLink(href: string, shown: string)
    | Badges(ids: seq<Id>)
    | Paragraph(body: string)
    | NoAnswer

  /** The wire type of the joined question, or nothing when the answer has no joined question. */
  function TypeOf(a: ResponseAnswer): Option<string> {
    if a.questions.Some? then Some(a.questions.value.question_type) else None
  }

  predicate TypeIs(a: ResponseAnswer, t: string) {
    TypeOf(a) == Some(t)
  }

  /**
    `Number(answer_text || 0)` for the star view: missing or empty text is
    0, a run of digits is its value, and anything else is not a number
    (`None`), which fills no star.
  */
  function StarRating(text: Option<string>): (rating: Option<nat>)
    ensures !Filled(text) ==> rating == Some(0)
    ensures Filled(text) ==> rating == ParseNat(text.value)
  {
    if Filled(text) then ParseNat(text.value) else Some(0)
  }

  /** Star `i` (0-based) is filled when `i < rating`; a comparison with not-a-number is false. */
  function StarRow(rating: Option<nat>): (row: seq<bool>)
    ensures |row| == 5
    ensures forall i :: 0 <= i < 5 ==> (row[i] <==> rating.Some? && i < rating.value)
  {
    LitRow(5, if rating.Some? then rating.value else 0)
  }

  /** One of the type-specific views applies: these are tried before the populated fields. */
  predicate TypeViewApplies(a: ResponseAnswer) {
    (TypeIs(a, "file_upload") && Filled(a.file_url))
    || (TypeIs(a, "signature") && Filled(a.file_url))
    || TypeIs(a, "rating_5")
    || TypeIs(a, "rating_10")
    || (TypeIs(a, "url") && Filled(a.answer_text))
    || (TypeIs(a, "email") && Filled(a.answer_text))
    || (TypeIs(a, "phone") && Filled(a.answer_text))
  }

  predicate HasSelection(a: ResponseAnswer) {
    a.selected_options.Some? && |a.selected_options.value| > 0
  }

  /** `renderAnswer`. */
  function RenderAnswer(a: ResponseAnswer): (v: View)
    ensures v.FileCard? <==> TypeIs(a, "file_upload") && Filled(a.file_url)
    ensures v.SignatureImage? <==> TypeIs(a, "signature") && Filled(a.file_url)
    ensures v.Stars? <==> TypeIs(a, "rating_5")
    ensures v.ScaleText? <==> TypeIs(a, "rating_10")
    ensures v.ExternalLink? <==> TypeIs(a, "url") && Filled(a.answer_text)
    ensures v.MailLink? <==> TypeIs(a, "email") && Filled(a.answer_text)
    ensures v.TelLink? <==> TypeIs(a, "phone") && Filled(a.answer_text)
    ensures v.Badges? <==> !TypeViewApplies(a) && HasSelection(a)
    ensures v.Paragraph? <==> !TypeViewApplies(a) && !HasSelection(a) && Filled(a.answer_text)
    ensures v.NoAnswer? <==> !TypeViewApplies(a) && !HasSelection(a) && !Filled(a.answer_text)
    ensures v.FileCard? ==> v.url == a.file_url.value && v.name == a.file_name
    ensures v.FileCard? ==> (v.knownSize.Some? <==> a.file_size.Some? && a.file_size.value != 0)
    ensures v.SignatureImage? ==> v.url == a.file_url.value
    ensures v.Stars? ==> v.rating == StarRating(a.answer_text) && v.filled == StarRow(v.rating)
    ensures v.ScaleText? ==> v.value == a.answer_text
    ensures v.ExternalLink? ==> v.href == a.answer_text.value
    ensures v.MailLink? ==> v.href == "mailto:" + a.answer_text.value && v.shown == a.answer_text.value
    ensures v.TelLink? ==> v.href == "tel:" + a.answer_text.value && v.shown == a.answer_text.value
    ensures v.Badges? ==> v.ids == a.selected_options.value
    ensures v.Paragraph? ==> v.body == a.answer_text.value
  {
    if TypeIs(a, "file_upload") && Filled(a.file_url) then
      FileCard(a.file_url.value, a.file_name,
               if a.file_size.Some? && a.file_size.value != 0 then a.file_size else None)
    else if TypeIs(a, "signature") && Filled(a.file_url) then SignatureImage(a.file_url.value)
    else if TypeIs(a, "rating_5") then
      var rating := StarRating(a.answer_text);
      Stars(StarRow(rating), rating)
    else if TypeIs(a, "rating_10") then ScaleText(a.answer_text)
    else if TypeIs(a, "url") && Filled(a.answer_text) then ExternalLink(a.answer_text.value)
    else if TypeIs(a, "email") && Filled(a.answer_text) then
      MailLink("mailto:" + a.answer_text.value, a.answer_text.value)
    else if TypeIs(a, "phone") && Filled(a.answer_text) then
      TelLink("tel:" + a.answer_text.value, a.answer_text.value)
    else if HasSelection(a) then Badges(a.selected_options.value)
    else if Filled(a.answer_text) then Paragraph(a.answer_text.value)
    else NoAnswer
  }

  /** The badge over an answer: the registry label of the joined type, or of `""` when there is none. */
  function TypeBadge(a: ResponseAnswer): (text: string)
    ensures a.questions.None? ==> text == ""
    ensures forall t :: TypeIs(a, Tag(t)) ==> text == QuestionTypes.Config(t).typeLabel
  {
    var t := if a.questions.Some? && a.questions.value.question_type != "" then a.questions.value.question_type else "";
    QuestionTypes.GetQuestionTypeLabel(t)
  }

  /**
    A five-star answer holding the decimal text of a whole number `r`
    fills exactly `min(r, 5)` stars, and missing text fills none.
  */
  lemma {:induction false} StarsFilled(a: ResponseAnswer, r: nat)
    requires TypeIs(a, "rating_5")
    requires a.answer_text == Some(NatToString(r)) || (a.answer_text.None? && r == 0)
    ensures RenderAnswer(a).Stars?
    ensures CountTrue(RenderAnswer(a).filled) == if r < 5 then r else 5
  {
    if a.answer_text.Some? {
      ParseNatToString(r);
    }
    LitRowCount(5, r);
  }

  /** Text that is not a number fills no star. */
  lemma {:induction false} NonNumericFillsNoStar(a: ResponseAnswer)
    requires TypeIs(a, "rating_5")
    requires Filled(a.answer_text) && ParseNat(a.answer_text.value).None?
    ensures CountTrue(RenderAnswer(a).filled) == 0
  {
    LitRowCount(5, 0);
  }

  /** A file or signature answer without a file URL falls through to the field-based views. */
  lemma FileWithoutUrlFallsThrough(a: ResponseAnswer)
    requires TypeIs(a, "file_upload") || TypeIs(a, "signature")
    requires !Filled(a.file_url)
    ensures RenderAnswer(a).Badges? || RenderAnswer(a).Paragraph? || RenderAnswer(a).NoAnswer?
  {
  }
}
