/**
  The shared data model of the form builder (`frontend/src/types/form.ts`):
  forms, their typed questions and options, submitted answers, stored
  response answers, form media and form branding.

  Identifiers are strings. Timestamps, which the source carries as ISO date
  strings, are whole numbers here (milliseconds); only their order matters.
*/
module FormTypes {
  import opened Wrappers

  type Id = string

  /** The closed set of question kinds. */
  datatype QuestionType =
    | ShortText | LongText | MultipleChoice | Checkboxes | Dropdown | Date | Time
    | Email | Phone | Url | Rating5 | Rating10 | FileUpload | Signature

  /** The wire spelling of each kind. */
  function Tag(t: QuestionType): string {
    match t
    case ShortText => "short_text"
    case LongText => "long_text"
    case MultipleChoice => "multiple_choice"
    case Checkboxes => "checkboxes"
    case Dropdown => "dropdown"
    case Date => "date"
    case Time => "time"
    case Email => "email"
    case Phone => "phone"
    case Url => "url"
    case Rating5 => "rating_5"
    case Rating10 => "rating_10"
    case FileUpload => "file_upload"
    case Signature => "signature"
  }

  /** Reads a wire string back as a kind; any other string names no kind. */
  function ParseQuestionType(s: string): Option<QuestionType> {
    if s == "short_text" then Some(ShortText)
    else if s == "long_text" then Some(LongText)
    else if s == "multiple_choice" then Some(MultipleChoice)
    else if s == "checkboxes" then Some(Checkboxes)
    else if s == "dropdown" then Some(Dropdown)
    else if s == "date" then Some(Date)
    else if s == "time" then Some(Time)
    else if s == "email" then Some(Email)
    else if s == "phone" then Some(Phone)
    else if s == "url" then Some(Url)
    else if s == "rating_5" then Some(Rating5)
    else if s == "rating_10" then Some(Rating10)
    else if s == "file_upload" then Some(FileUpload)
    else if s == "signature" then Some(Signature)
    else None
  }

  /** Every kind, once each, in declaration order. */
  const AllQuestionTypes: seq<QuestionType> :=
    [ShortText, LongText, MultipleChoice, Checkboxes, Dropdown, Date, Time,
     Email, Phone, Url, Rating5, Rating10, FileUpload, Signature]

  /** There are exactly fourteen kinds: the list is duplicate-free and covers every kind. */
  lemma QuestionTypesAreFourteen()
    ensures |AllQuestionTypes| == 14
    ensures forall i, j :: 0 <= i < j < |AllQuestionTypes| ==> AllQuestionTypes[i] != AllQuestionTypes[j]
    ensures forall t: QuestionType :: t in AllQuestionTypes
  {
    forall t: QuestionType
      ensures t in AllQuestionTypes
    {
      assert AllQuestionTypes[Ordinal(t)] == t;
    }
  }

  /** The position of each kind in the declaration order: indexing the list of kinds there gives the kind back. */
  function Ordinal(t: QuestionType): (k: nat)
    ensures k < |AllQuestionTypes| && AllQuestionTypes[k] == t
  {
    match t
    case ShortText => 0
    case LongText => 1
    case MultipleChoice => 2
    case Checkboxes => 3
    case Dropdown => 4
    case Date => 5
    case Time => 6
    case Email => 7
    case Phone => 8
    case Url => 9
    case Rating5 => 10
    case Rating10 => 11
    case FileUpload => 12
    case Signature => 13
  }

  /** A string spells a kind exactly when the parser reads it as that kind. */
  lemma SpellingIsParse(s: string)
    ensures forall t :: Tag(t) == s <==> ParseQuestionType(s) == Some(t)
  {
    forall t
      ensures Tag(t) == s <==> ParseQuestionType(s) == Some(t)
    {
      TagRoundTrip(t, s);
    }
  }

  /** The wire spelling and the parser are inverse to each other, in both directions. */
  lemma TagRoundTrip(t: QuestionType, s: string)
    ensures ParseQuestionType(Tag(t)) == Some(t)
    ensures ParseQuestionType(s) == Some(t) ==> Tag(t) == s
  {
    TagParses(t);
    ParseSpells(t, s);
  }

  lemma TagParses(t: QuestionType)
    ensures ParseQuestionType(Tag(t)) == Some(t)
  {
  }

  lemma ParseSpells(t: QuestionType, s: string)
    ensures ParseQuestionType(s) == Some(t) ==> Tag(t) == s
  {
  }

  /** The kinds whose questions carry an option list. */
  predicate IsChoice(t: QuestionType) {
    t == MultipleChoice || t == Checkboxes || t == Dropdown
  }

  datatype Form = Form(
    id: Id,
    title: string,
    description: Option<string>,
    created_by: Id,
    is_public: bool,
    created_at: int)

  datatype QuestionOption = QuestionOption(
    id: Id,
    question_id: Id,
    option_text: string,
    order_index: int)

  /**
    A question as the server delivers it. The declared type of
    `question_type` is the fourteen-kind union, but the server stores any
    non-empty string, so the model keeps the string and compares it with `Tag`.
  */
  datatype Question = Question(
    id: Id,
    form_id: Id,
    question_text: string,
    question_type: string,
    is_required: bool,
    order_index: int,
    options: seq<QuestionOption>)

  /** True when the question's stored type string is the wire spelling of `t`. */
  predicate HasType(q: Question, t: QuestionType) {
    q.question_type == Tag(t)
  }

  datatype FormWithQuestions = FormWithQuestions(form: Form, questions: seq<Question>)

  /** A file as the browser or the upload middleware describes it: name, MIME type, size in bytes. */
  datatype FileInfo = FileInfo(name: string, mime: string, size: int)

  /** An uploaded file as sent in a submission: name, MIME type and base64 content. */
  datatype FileData = FileData(name: string, mime: string, content: Option<string>)

  /** One submitted answer as sent to the server. */
  datatype Answer = Answer(
    question_id: Id,
    answer_text: Option<string>,
    selected_options: Option<seq<Id>>,
    file_data: Option<FileData>,
    question_type: Option<string>)

  /** The text and wire type of the question a stored answer joins to. */
  datatype JoinedQuestion = JoinedQuestion(question_text: string, question_type: string)

  /** One stored answer as read back, with its question joined in when it exists. */
  datatype ResponseAnswer = ResponseAnswer(
    id: Id,
    response_id: Id,
    question_id: Id,
    answer_text: Option<string>,
    selected_options: Option<seq<Id>>,
    file_url: Option<string>,
    file_name: Option<string>,
    file_size: Option<int>,
    storage_path: Option<string>,
    questions: Option<JoinedQuestion>)

  datatype Response = Response(id: Id, form_id: Id, submitted_at: int, answers: seq<ResponseAnswer>)

  datatype MediaType = Image | Video | Logo

  function MediaTypeTag(m: MediaType): string {
    match m
    case Image => "image"
    case Video => "video"
    case Logo => "logo"
  }

  /**
    A stored media item. The declared position values are top, bottom, left
    and right, but the server keeps whatever string the client sends.
  */
  datatype FormMedia = FormMedia(
    id: Id,
    form_id: Id,
    question_id: Option<Id>,
    media_type: MediaType,
    media_url: string,
    storage_path: string,
    file_name: string,
    file_size: int,
    mime_type: string,
    position: string,
    created_at: int)

  datatype MediaPosition = Top | Bottom | Left | Right

  function MediaPositionTag(p: MediaPosition): string {
    match p
    case Top => "top"
    case Bottom => "bottom"
    case Left => "left"
    case Right => "right"
  }

  datatype FormWidth = Small | Medium | Large | Full

  function FormWidthTag(w: FormWidth): string {
    match w
    case Small => "small"
    case Medium => "medium"
    case Large => "large"
    case Full => "full"
  }

  datatype LogoPosition = LogoTop | LogoCenter

  function LogoPositionTag(p: LogoPosition): string {
    match p
    case LogoTop => "top"
    case LogoCenter => "center"
  }

  /**
    The fifteen style fields of a branding record. Each may be missing: the
    server copies them from the request body without checking them.
  */
  datatype BrandingStyle = BrandingStyle(
    primary_color: Option<string>,
    secondary_color: Option<string>,
    background_color: Option<string>,
    text_color: Option<string>,
    button_color: Option<string>,
    button_text_color: Option<string>,
    logo_url: Option<string>,
    logo_storage_path: Option<string>,
    logo_position: Option<string>,
    font_family: Option<string>,
    heading_font_size: Option<int>,
    body_font_size: Option<int>,
    form_width: Option<string>,
    border_radius: Option<int>,
    custom_css: Option<string>)

  /** A stored branding record: at most one per form, keyed by `form_id`. */
  datatype FormBranding = FormBranding(form_id: Id, style: BrandingStyle, updated_at: int)
}
