/**
  The responses page of a form (`frontend/src/features/responses/ResponsesList.tsx`):
  the table of answers, the local removal after a delete, and the CSV
  export. The export wraps every cell in double quotes without escaping
  the quotes inside it, so two different tables can export to the same
  text; the corrected encoding doubles embedded quotes (the convention of
  RFC 4180, section 2) and is proved to parse back to its table.
  Formatting a submission time in the browser's locale is a parameter.
*/
module ResponsesList {
  import opened Wrappers
  import opened Text
  import opened Seqs
  import opened FormTypes

  // ---------------------------------------------------------------- cells

  /** The position of the first answer to the question. */
  function FirstIndex(answers: seq<ResponseAnswer>, questionId: Id): (r: Option<nat>)
    ensures r.Some? ==> (
      && r.value < |answers| && answers[r.value].question_id == questionId
      && forall j :: 0 <= j < r.value ==> answers[j].question_id != questionId)
    ensures r.None? <==> forall k :: 0 <= k < |answers| ==> answers[k].question_id != questionId
    decreases |answers|
  {
    if |answers| == 0 then None
    else if answers[0].question_id == questionId then Some(0)
    else
      match FirstIndex(answers[1..], questionId)
      case None => None
      case Some(i) => Some(i + 1)
  }

  /** The first answer to the question, as `answers.find` returns it. */
  function FirstAnswer(answers: seq<ResponseAnswer>, questionId: Id): Option<ResponseAnswer> {
    match FirstIndex(answers, questionId)
    case None => None
    case Some(i) => Some(answers[i])
  }

  /** The text an answer shows, or the fallback for a missing answer, a null text and an empty text alike. */
  function ShownText(a: Option<ResponseAnswer>, fallback: string): (s: string)
    ensures s == fallback <==> a.None? || a.value.answer_text.None? || a.value.answer_text.value == "" || a.value.answer_text.value == fallback
    ensures s != fallback ==> a.Some? && a.value.answer_text == Some(s)
  {
    if a.Some? && a.value.answer_text.Some? && a.value.answer_text.value != "" then a.value.answer_text.value
    else fallback
  }

  /** The dash the table shows for an absent answer. */
  const Dash: string := "—"

  /** A cell of the on-screen table. */
  function TableCell(r: Response, q: Question): string {
    ShownText(FirstAnswer(r.answers, q.id), Dash)
  }

  /** A cell of the export. */
  function CsvCell(r: Response, q: Question): string {
    ShownText(FirstAnswer(r.answers, q.id), "")
  }

  /** The table and the export show the same answer, except that where the export leaves the cell empty the table shows the dash. */
  lemma CellsAgree(r: Response, q: Question)
    ensures CsvCell(r, q) == "" ==> TableCell(r, q) == Dash
    ensures CsvCell(r, q) != "" ==> TableCell(r, q) == CsvCell(r, q)
  {
  }

  /** `handleDelete` after the server confirms: the response leaves the list; the rest keep their order. */
  function RemoveResponse(responses: seq<Response>, id: Id): (r: seq<Response>)
    ensures forall k :: 0 <= k < |r| ==> r[k].id != id && r[k] in responses
    ensures forall k :: 0 <= k < |responses| && responses[k].id != id ==> responses[k] in r
  {
    Filter(responses, (x: Response) => x.id != id)
  }

  // ---------------------------------------------------------------- the exported table

  const SubmittedHeader: string := "Submitted At"

  function QuestionText(q: Question): string {
    q.question_text
  }

  function Header(form: FormWithQuestions): (h: seq<string>)
    ensures |h| == 1 + |form.questions| && h[0] == SubmittedHeader
    ensures forall k :: 0 <= k < |form.questions| ==> h[k + 1] == form.questions[k].question_text
  {
    [SubmittedHeader] + Map(form.questions, QuestionText)
  }

  /** One response's row: its formatted time, then one cell per question of the form, in the form's order. */
  function Row(form: FormWithQuestions, formatTime: int -> string, r: Response): (row: seq<string>)
    ensures |row| == 1 + |form.questions| && row[0] == formatTime(r.submitted_at)
    ensures forall k :: 0 <= k < |form.questions| ==> row[k + 1] == CsvCell(r, form.questions[k])
  {
    [formatTime(r.submitted_at)] + Map(form.questions, (q: Question) => CsvCell(r, q))
  }

  /** The header followed by one row per response, in the order the list holds them. */
  function Table(form: FormWithQuestions, responses: seq<Response>, formatTime: int -> string): (t: seq<seq<string>>)
    ensures |t| == 1 + |responses| && t[0] == Header(form)
    ensures forall k :: 0 <= k < |responses| ==> t[k + 1] == Row(form, formatTime, responses[k])
    ensures forall k :: 0 <= k < |t| ==> |t[k]| == 1 + |form.questions|
  {
    [Header(form)] + Map(responses, (r: Response) => Row(form, formatTime, r))
  }

  // ---------------------------------------------------------------- encoding as written

  function QuoteAsWritten(cell: string): string {
    "\"" + cell + "\""
  }

  function RecordAsWritten(cells: seq<string>): string {
    Join(Map(cells, QuoteAsWritten), ',')
  }

  function EncodeAsWritten(rows: seq<seq<string>>): string {
    Join(Map(rows, RecordAsWritten), '\n')
  }

  /** `exportToCSV` as written: nothing without a form or without responses. */
  function ExportAsWritten(form: Option<FormWithQuestions>, responses: seq<Response>, formatTime: int -> string)
    : (csv: Option<string>)
    ensures csv.None? <==> form.None? || |responses| == 0
    ensures csv.Some? ==> csv.value == EncodeAsWritten(Table(form.value, responses, formatTime))
  {
    if form.None? || |responses| == 0 then None
    else Some(EncodeAsWritten(Table(form.value, responses, formatTime)))
  }

  /**
    An answer holding `a","b` exports exactly like two answers `a` and
    `b`: the export as written cannot be read back unambiguously.
  */
  lemma QuoteInAnswerCollides()
    ensures EncodeAsWritten([["a\",\"b"]]) == EncodeAsWritten([["a", "b"]])
    ensures [["a\",\"b"]] != [["a", "b"]]
  {
    var one := Map(["a\",\"b"], QuoteAsWritten);
    var two := Map(["a", "b"], QuoteAsWritten);
    assert one[0] == QuoteAsWritten("a\",\"b") == "\"a\",\"b\"";
    assert two[0] == QuoteAsWritten("a") && two[1] == QuoteAsWritten("b");
    assert Join(two[1..], ',') == two[1];
    assert Join(two, ',') == "\"a\"" + [','] + "\"b\"";
    assert Map([["a\",\"b"]], RecordAsWritten) == [RecordAsWritten(["a\",\"b"])];
    assert Map([["a", "b"]], RecordAsWritten) == [RecordAsWritten(["a", "b"])];
    assert ["a\",\"b"][0] != ["a", "b"][0];
  }

  // ---------------------------------------------------------------- encoding with escaped quotes

  /** Every double quote doubled. */
  function Escape(cell: string): string
    decreases |cell|
  {
    if |cell| == 0 then []
    else (if cell[0] == '"' then "\"\"" else [cell[0]]) + Escape(cell[1..])
  }

  /** Escaping adds exactly one character per double quote of the cell. */
  lemma {:induction false} EscapeLength(cell: string)
    ensures |Escape(cell)| == |cell| + multiset(cell)['"']
    decreases |cell|
  {
    if |cell| > 0 {
      EscapeLength(cell[1..]);
      assert cell == [cell[0]] + cell[1..];
    }
  }

  function Quote(cell: string): string {
    "\"" + Escape(cell) + "\""
  }

  function Record(cells: seq<string>): string {
    Join(Map(cells, Quote), ',')
  }

  function Encode(rows: seq<seq<string>>): string {
    Join(Map(rows, Record), '\n')
  }

  /** `exportToCSV` with the embedded quotes escaped. */
  function Export(form: Option<FormWithQuestions>, responses: seq<Response>, formatTime: int -> string)
    : (csv: Option<string>)
    ensures csv.None? <==> form.None? || |responses| == 0
    ensures csv.Some? ==> ParseRows(csv.value) == Some(Table(form.value, responses, formatTime))
  {
    if form.None? || |responses| == 0 then None
    else
      var t := Table(form.value, responses, formatTime);
      EncodeRoundTrip(t);
      Some(Encode(t))
  }

  // ---------------------------------------------------------------- reading the encoding back

  /** The rest of a quoted field after its opening quote: its text and what follows the closing quote. */
  function ParseQuoted(s: string): (r: Option<(string, string)>)
    ensures r.Some? ==> |r.value.1| < |s|
    decreases |s|
  {
    if |s| == 0 then None
    else if s[0] == '"' then
      if |s| >= 2 && s[1] == '"' then
        match ParseQuoted(s[2..])
        case None => None
        case Some(p) => Some((['"'] + p.0, p.1))
      else Some(([], s[1..]))
    else
      match ParseQuoted(s[1..])
      case None => None
      case Some(p) => Some(([s[0]] + p.0, p.1))
  }

  /** Comma-separated quoted fields, up to the first character that is not a comma after a field. */
  function ParseFields(s: string): (r: Option<(seq<string>, string)>)
    ensures r.Some? ==> |r.value.1| < |s|
    decreases |s|
  {
    if |s| == 0 || s[0] != '"' then None
    else
      match ParseQuoted(s[1..])
      case None => None
      case Some(p) =>
        if |p.1| > 0 && p.1[0] == ',' then
          match ParseFields(p.1[1..])
          case None => None
          case Some(q) => Some(([p.0] + q.0, q.1))
        else Some(([p.0], p.1))
  }

  /** Records separated by newlines, to the end of the text. */
  function ParseRows(s: string): (r: Option<seq<seq<string>>>)
    decreases |s|
  {
    match ParseFields(s)
    case None => None
    case Some(p) =>
      if |p.1| == 0 then Some([p.0])
      else if p.1[0] == '\n' then
        match ParseRows(p.1[1..])
        case None => None
        case Some(rows) => Some([p.0] + rows)
      else None
  }

  lemma {:induction false} ParseEscaped(cell: string, rest: string)
    requires |rest| == 0 || rest[0] != '"'
    ensures ParseQuoted(Escape(cell) + "\"" + rest) == Some((cell, rest))
    decreases |cell|
  {
    var s := Escape(cell) + "\"" + rest;
    if |cell| == 0 {
      assert s == "\"" + rest;
      assert s[1..] == rest;
    } else {
      ParseEscaped(cell[1..], rest);
      var tail := Escape(cell[1..]) + "\"" + rest;
      if cell[0] == '"' {
        assert s == "\"\"" + tail;
        assert s[2..] == tail;
        assert ['"'] + cell[1..] == cell;
      } else {
        assert s == [cell[0]] + tail;
        assert s[1..] == tail;
        assert [cell[0]] + cell[1..] == cell;
      }
    }
  }

  /** A quoted field followed by neither a comma nor a quote is a record of one field. */
  lemma FieldThenStop(cell: string, rest: string)
    requires |rest| == 0 || (rest[0] != ',' && rest[0] != '"')
    ensures ParseFields(Quote(cell) + rest) == Some(([cell], rest))
  {
    var body := Escape(cell) + "\"" + rest;
    assert Quote(cell) + rest == ['"'] + body;
    ParseEscaped(cell, rest);
    LastField(body, cell, rest);
  }

  /** A quoted field followed by a comma is the first field of the record the rest starts. */
  lemma FieldThenComma(cell: string, more: string)
    ensures ParseFields(Quote(cell) + [','] + more)
         == match ParseFields(more)
            case None => None
            case Some(q) => Some(([cell] + q.0, q.1))
  {
    var after := [','] + more;
    var body := Escape(cell) + "\"" + after;
    assert Quote(cell) + [','] + more == ['"'] + body;
    ParseEscaped(cell, after);
    assert after[1..] == more;
    FieldBeforeComma(body, cell, after);
  }

  /** ParseFields on a field that is not followed by a comma: the record ends there. */
  lemma LastField(body: string, cell: string, rest: string)
    requires ParseQuoted(body) == Some((cell, rest))
    requires |rest| == 0 || rest[0] != ','
    ensures ParseFields(['"'] + body) == Some(([cell], rest))
  {
    assert (['"'] + body)[1..] == body;
  }

  /** ParseFields on a field followed by a comma: the field, then the fields after the comma. */
  lemma FieldBeforeComma(body: string, cell: string, after: string)
    requires ParseQuoted(body) == Some((cell, after))
    requires |after| > 0 && after[0] == ','
    ensures ParseFields(['"'] + body)
         == match ParseFields(after[1..])
            case None => None
            case Some(q) => Some(([cell] + q.0, q.1))
  {
    assert (['"'] + body)[1..] == body;
  }

  lemma {:induction false} ParseRecord(cells: seq<string>, rest: string)
    requires |cells| >= 1
    requires |rest| == 0 || (rest[0] != ',' && rest[0] != '"')
    ensures ParseFields(Record(cells) + rest) == Some((cells, rest))
    decreases |cells|
  {
    if |cells| == 1 {
      assert Record(cells) == Quote(cells[0]);
      FieldThenStop(cells[0], rest);
      assert [cells[0]] == cells;
    } else {
      var tail := cells[1..];
      assert Map(cells, Quote)[1..] == Map(tail, Quote);
      assert Record(cells) == Quote(cells[0]) + [','] + Record(tail);
      assert Record(cells) + rest == Quote(cells[0]) + [','] + (Record(tail) + rest);
      FieldThenComma(cells[0], Record(tail) + rest);
      ParseRecord(tail, rest);
      assert [cells[0]] + tail == cells;
    }
  }

  /** ParseRows on a record that ends the text. */
  lemma LastRow(s: string, cells: seq<string>)
    requires ParseFields(s) == Some((cells, ""))
    ensures ParseRows(s) == Some([cells])
  {
  }

  /** ParseRows on a record followed by a newline: the record, then the rows after the newline. */
  lemma RowBeforeNewline(s: string, cells: seq<string>, more: string)
    requires ParseFields(s) == Some((cells, ['\n'] + more))
    ensures ParseRows(s)
         == match ParseRows(more)
            case None => None
            case Some(rows) => Some([cells] + rows)
  {
    assert (['\n'] + more)[1..] == more;
  }

  /** Every table whose rows all have a cell reads back from its escaped encoding. */
  lemma {:induction false} EncodeRoundTrip(rows: seq<seq<string>>)
    requires |rows| >= 1
    requires forall k :: 0 <= k < |rows| ==> |rows[k]| >= 1
    ensures ParseRows(Encode(rows)) == Some(rows)
    decreases |rows|
  {
    if |rows| == 1 {
      assert Encode(rows) == Record(rows[0]);
      ParseRecord(rows[0], "");
      assert Record(rows[0]) + "" == Record(rows[0]);
      LastRow(Encode(rows), rows[0]);
      assert [rows[0]] == rows;
    } else {
      var tail := rows[1..];
      assert Map(rows, Record)[1..] == Map(tail, Record);
      assert Encode(rows) == Record(rows[0]) + (['\n'] + Encode(tail));
      ParseRecord(rows[0], ['\n'] + Encode(tail));
      RowBeforeNewline(Encode(rows), rows[0], Encode(tail));
      EncodeRoundTrip(tail);
      assert [rows[0]] + tail == rows;
    }
  }

  /** Where no answer holds a quote, the corrected export is the export as written. */
  lemma {:induction false} EscapeChangesOnlyQuotes(cell: string)
    requires '"' !in cell
    ensures Escape(cell) == cell && Quote(cell) == QuoteAsWritten(cell)
    decreases |cell|
  {
    if |cell| > 0 {
      EscapeChangesOnlyQuotes(cell[1..]);
      assert [cell[0]] + cell[1..] == cell;
    }
  }
}
