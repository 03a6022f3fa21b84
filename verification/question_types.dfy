/**
  The question-type registry (`frontend/src/lib/questionTypes.tsx`): one
  table entry per question kind with its display label, icon and
  description, and the two lookups by wire string with their fallbacks.
*/
module QuestionTypes {
  import opened Wrappers
  import opened FormTypes

  /** The icon components the table refers to. */
  datatype Icon =
    | TextCursorInput | MessageSquare | List | CheckSquare | ChevronDown | Calendar
    | Clock | Mail | Phone | Link | Star | Upload | PenTool

  datatype TypeConfig = TypeConfig(typeLabel: string, icon: Icon, description: string)

  /** The registry table, one entry per kind. */
  function Config(t: QuestionType): TypeConfig {
    TypeConfig(LabelOf(t), IconOf(t), DescriptionOf(t))
  }

  function LabelOf(t: QuestionType): string {
    match t
    case ShortText => "Short answer"
    case LongText => "Paragraph"
    case MultipleChoice => "Multiple choice"
    case Checkboxes => "Checkboxes"
    case Dropdown => "Dropdown"
    case Date => "Date"
    case Time => "Time"
    case Email => "Email"
    case Phone => "Phone"
    case Url => "URL"
    case Rating5 => "Star Rating"
    case Rating10 => "Scale Rating"
    case FileUpload => "File Upload"
    case Signature => "Signature"
  }

  function IconOf(t: QuestionType): Icon {
    match t
    case ShortText => TextCursorInput
    case LongText => MessageSquare
    case MultipleChoice => List
    case Checkboxes => CheckSquare
    case Dropdown => ChevronDown
    case Date => Calendar
    case Time => Clock
    case Email => Mail
    case Phone => Icon.Phone
    case Url => Link
    case Rating5 => Star
    case Rating10 => Star
    case FileUpload => Upload
    case Signature => PenTool
  }

  function DescriptionOf(t: QuestionType): string {
    match t
    case ShortText => "Single line text input"
    case LongText => "Multi-line text area"
    case MultipleChoice => "Radio buttons - single selection"
    case Checkboxes => "Multiple selection"
    case Dropdown => "Select from dropdown menu"
    case Date => "Date picker"
    case Time => "Time picker"
    case Email => "Email address with validation"
    case Phone => "Phone number input"
    case Url => "Website link with validation"
    case Rating5 => "5-star rating scale"
    case Rating10 => "1-10 number scale"
    case FileUpload => "Allow file uploads"
    case Signature => "Digital signature capture"
  }

  /**
    `getQuestionTypeLabel`: the table label for a known wire string, the
    string itself for any other.
  */
  function GetQuestionTypeLabel(s: string): (text: string)
    ensures forall t :: Tag(t) == s ==> text == Config(t).typeLabel
    ensures (forall t :: Tag(t) != s) ==> text == s
  {
    SpellingIsParse(s);
    match ParseQuestionType(s)
    case Some(t) => Config(t).typeLabel
    case None => s
  }

  /** `getQuestionTypeIcon`: the table icon for a known wire string, the short-text icon otherwise. */
  function GetQuestionTypeIcon(s: string): (icon: Icon)
    ensures forall t :: Tag(t) == s ==> icon == Config(t).icon
    ensures (forall t :: Tag(t) != s) ==> icon == TextCursorInput
  {
    SpellingIsParse(s);
    match ParseQuestionType(s)
    case Some(t) => Config(t).icon
    case None => TextCursorInput
  }

  /** No two kinds share a label; every label is non-empty, so the `||` fallback never hides one. */
  lemma LabelsDistinct(t: QuestionType, u: QuestionType)
    ensures Config(t).typeLabel != ""
    ensures Config(t).typeLabel == Config(u).typeLabel ==> t == u
  {
    LabelNamesKind(t);
    LabelNamesKind(u);
  }

  /** The kind a label belongs to, read back from the label. */
  function KindOfLabel(name: string): Option<QuestionType> {
    if name == "Short answer" then Some(ShortText)
    else if name == "Paragraph" then Some(LongText)
    else if name == "Multiple choice" then Some(MultipleChoice)
    else if name == "Checkboxes" then Some(Checkboxes)
    else if name == "Dropdown" then Some(Dropdown)
    else if name == "Date" then Some(Date)
    else if name == "Time" then Some(Time)
    else if name == "Email" then Some(Email)
    else if name == "Phone" then Some(QuestionType.Phone)
    else if name == "URL" then Some(Url)
    else if name == "Star Rating" then Some(Rating5)
    else if name == "Scale Rating" then Some(Rating10)
    else if name == "File Upload" then Some(FileUpload)
    else if name == "Signature" then Some(Signature)
    else None
  }

  lemma LabelNamesKind(t: QuestionType)
    ensures LabelOf(t) != "" && KindOfLabel(LabelOf(t)) == Some(t)
  {
  }

  /** Star and scale ratings share the star icon, so icons, unlike labels, do not identify the kind. */
  lemma RatingsShareIcon()
    ensures Config(Rating5).icon == Config(Rating10).icon == Star
    ensures Config(Rating5).typeLabel != Config(Rating10).typeLabel
  {
  }

  /** Every other kind has an icon of its own. */
  lemma IconsDistinctOutsideRatings(t: QuestionType, u: QuestionType)
    requires t != u
    requires !(t in {Rating5, Rating10} && u in {Rating5, Rating10})
    ensures Config(t).icon != Config(u).icon
  {
    IconNamesKind(t);
    IconNamesKind(u);
  }

  /** The kind an icon stands for; the star stands for the star rating. */
  function KindOfIcon(i: Icon): QuestionType {
    match i
    case TextCursorInput => ShortText
    case MessageSquare => LongText
    case List => MultipleChoice
    case CheckSquare => Checkboxes
    case ChevronDown => Dropdown
    case Calendar => Date
    case Clock => Time
    case Mail => Email
    case Phone => QuestionType.Phone
    case Link => Url
    case Star => Rating5
    case Upload => FileUpload
    case PenTool => Signature
  }

  lemma IconNamesKind(t: QuestionType)
    ensures KindOfIcon(IconOf(t)) == if t == Rating10 then Rating5 else t
  {
  }
}
