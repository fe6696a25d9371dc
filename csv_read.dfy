/** A reader for the text the admin export produces, used to state what the
    export means. It reads the CSV dialect `escapeCSV` writes: records end
    with a line feed, a comma or a line feed ends an unquoted field (a
    carriage return does not), and a quoted field doubles its quotes.
    Reading the CSV back field by field yields the header titles and then
    the values of the rows, and the content, of the shape
    `data:<media type>,<data>` that RFC 2397 gives a `data:` URI, carries
    exactly that text before `encodeURI` escapes it. */
module CsvRead {
  import opened Wrappers
  import opened Text
  import opened Domain
  import opened CsvExport

  /** The characters that end an unquoted field. */
  predicate IsSeparator(c: char) {
    c == ',' || c == '\n'
  }

  /** How many characters `s` starts with before a comma or line feed. */
  function PlainLength(s: string): (n: nat)
    ensures n <= |s|
    ensures forall i :: 0 <= i < n ==> !IsSeparator(s[i])
    ensures n == |s| || IsSeparator(s[n])
  {
    if s == [] || IsSeparator(s[0]) then 0 else 1 + PlainLength(s[1..])
  }

  /** An unquoted field: everything up to the next comma or line feed. */
  function ReadPlain(s: string): (r: (string, string))
    ensures r.0 + r.1 == s
    ensures r.1 == [] || IsSeparator(r.1[0])
    ensures forall i :: 0 <= i < |r.0| ==> !IsSeparator(r.0[i])
  {
    var n := PlainLength(s);
    assert s[..n] + s[n..] == s;
    (s[..n], s[n..])
  }

  /** The inside of a quoted field, after its opening quote: a doubled quote
      stands for one quote and a single quote closes the field. `None` when
      the closing quote is missing. */
  function ReadQuoted(s: string): (r: Option<(string, string)>)
    ensures r.Some? ==> s == DoubleQuotes(r.value.0) + "\"" + r.value.1
  {
    if s == [] then None
    else if s[0] == '"' then
      if |s| >= 2 && s[1] == '"' then
        match ReadQuoted(s[2..])
        case None => None
        case Some((v, rest)) =>
          assert ("\"" + v)[1..] == v;
          Some(("\"" + v, rest))
      else
        Some(([], s[1..]))
    else
      match ReadQuoted(s[1..])
      case None => None
      case Some((v, rest)) =>
        assert ([s[0]] + v)[1..] == v;
        Some(([s[0]] + v, rest))
  }

  /** One field and what follows it, which is empty or starts with a
      separator. `None` for an unterminated quoted field or text between a
      closing quote and the next separator. */
  function ReadField(s: string): (r: Option<(string, string)>)
    ensures r.Some? ==> |r.value.1| <= |s|
    ensures r.Some? ==> r.value.1 == [] || IsSeparator(r.value.1[0])
    ensures s == [] || s[0] != '"' ==> r == Some(ReadPlain(s))
  {
    if s != [] && s[0] == '"' then
      match ReadQuoted(s[1..])
      case None => None
      case Some((v, rest)) =>
        if rest == [] || IsSeparator(rest[0]) then Some((v, rest)) else None
    else
      Some(ReadPlain(s))
  }

  /** One record: fields separated by commas, up to and including the line
      feed that ends it, or to the end of the text. */
  function ReadRecord(s: string): (r: Option<(seq<string>, string)>)
    ensures r.Some? ==> |r.value.0| >= 1 && |r.value.1| <= |s|
    ensures r.Some? && s != [] ==> |r.value.1| < |s|
    decreases |s|
  {
    match ReadField(s)
    case None => None
    case Some((f, rest)) =>
      if rest == [] then Some(([f], []))
      else if rest[0] == '\n' then Some(([f], rest[1..]))
      else
        match ReadRecord(rest[1..])
        case None => None
        case Some((fs, more)) => Some(([f] + fs, more))
  }

  /** All the records of a text; a final line feed does not open an empty
      record. */
  function ReadRecords(s: string): (r: Option<seq<seq<string>>>)
    ensures r.Some? && s != [] ==> |r.value| >= 1
    decreases |s|
  {
    if s == [] then Some([])
    else
      match ReadRecord(s)
      case None => None
      case Some((rec, rest)) =>
        match ReadRecords(rest)
        case None => None
        case Some(recs) => Some([rec] + recs)
  }

  // ---------------------------------------------------------------------------
  // Reading back what the export writes

  /** A cell that reads back as its value: an escaped cell always does, a
      verbatim cell when it holds no comma, quote or line feed. */
  predicate CellReadable(c: Cell) {
    c.Escaped? || !NeedsQuoting(c.value)
  }

  predicate RowReadable(row: seq<Cell>) {
    |row| >= 1 && forall i :: 0 <= i < |row| ==> CellReadable(row[i])
  }

  /** The values a row stands for, before rendering. */
  function CellValues(cells: seq<Cell>): (vs: seq<string>)
    ensures |vs| == |cells|
    ensures forall i :: 0 <= i < |cells| ==> vs[i] == cells[i].value
  {
    if cells == [] then [] else [cells[0].value] + CellValues(cells[1..])
  }

  function RowValues(rows: seq<seq<Cell>>): (vss: seq<seq<string>>)
    ensures |vss| == |rows|
    ensures forall k :: 0 <= k < |rows| ==> vss[k] == CellValues(rows[k])
  {
    if rows == [] then [] else [CellValues(rows[0])] + RowValues(rows[1..])
  }

  lemma ReadPlainBack(v: string, tail: string)
    requires forall i :: 0 <= i < |v| ==> !IsSeparator(v[i])
    requires tail == [] || IsSeparator(tail[0])
    ensures ReadPlain(v + tail) == (v, tail)
  {
    var s := v + tail;
    assert s[..|v|] == v && s[|v|..] == tail;
  }

  /** The body of a quoted field reads back as the value whose quotes were
      doubled, provided no quote follows the closing one. */
  lemma {:induction false} ReadQuotedBack(v: string, tail: string)
    requires tail == [] || tail[0] != '"'
    ensures ReadQuoted(DoubleQuotes(v) + "\"" + tail) == Some((v, tail))
  {
    var s := DoubleQuotes(v) + "\"" + tail;
    if v == [] {
      assert s == "\"" + tail;
      assert s[1..] == tail;
    } else {
      ReadQuotedBack(v[1..], tail);
      var inner := DoubleQuotes(v[1..]) + "\"" + tail;
      if v[0] == '"' {
        QuoteStep(v, inner, tail);
      } else {
        CharStep(v, inner, tail);
      }
    }
  }

  lemma QuoteStep(v: string, inner: string, tail: string)
    requires v != [] && v[0] == '"'
    requires inner == DoubleQuotes(v[1..]) + "\"" + tail
    requires ReadQuoted(inner) == Some((v[1..], tail))
    ensures ReadQuoted(DoubleQuotes(v) + "\"" + tail) == Some((v, tail))
  {
    DoubledQuoteAhead(v, tail);
    ReadDoubledQuote(DoubleQuotes(v) + "\"" + tail, v[1..], tail);
    assert "\"" + v[1..] == v;
  }

  lemma CharStep(v: string, inner: string, tail: string)
    requires v != [] && v[0] != '"'
    requires inner == DoubleQuotes(v[1..]) + "\"" + tail
    requires ReadQuoted(inner) == Some((v[1..], tail))
    ensures ReadQuoted(DoubleQuotes(v) + "\"" + tail) == Some((v, tail))
  {
    OrdinaryCharAhead(v, tail);
    ReadOrdinaryChar(DoubleQuotes(v) + "\"" + tail, v[1..], tail);
    assert [v[0]] + v[1..] == v;
  }

  /** A value starting with a quote is written starting with two. */
  lemma DoubledQuoteAhead(v: string, tail: string)
    requires v != [] && v[0] == '"'
    ensures var s := DoubleQuotes(v) + "\"" + tail;
      |s| >= 2 && s[0] == '"' && s[1] == '"' && s[2..] == DoubleQuotes(v[1..]) + "\"" + tail
  {
    var s := DoubleQuotes(v) + "\"" + tail;
    assert s == "\"\"" + (DoubleQuotes(v[1..]) + "\"" + tail);
  }

  /** A value starting with any other character is written starting with it. */
  lemma OrdinaryCharAhead(v: string, tail: string)
    requires v != [] && v[0] != '"'
    ensures var s := DoubleQuotes(v) + "\"" + tail;
      s != [] && s[0] == v[0] && s[1..] == DoubleQuotes(v[1..]) + "\"" + tail
  {
    var s := DoubleQuotes(v) + "\"" + tail;
    assert s == [v[0]] + (DoubleQuotes(v[1..]) + "\"" + tail);
  }

  /** One step of `ReadQuoted` over a doubled quote. */
  lemma ReadDoubledQuote(s: string, v: string, rest: string)
    requires |s| >= 2 && s[0] == '"' && s[1] == '"'
    requires ReadQuoted(s[2..]) == Some((v, rest))
    ensures ReadQuoted(s) == Some(("\"" + v, rest))
  {
  }

  /** One step of `ReadQuoted` over a character other than a quote. */
  lemma ReadOrdinaryChar(s: string, v: string, rest: string)
    requires s != [] && s[0] != '"'
    requires ReadQuoted(s[1..]) == Some((v, rest))
    ensures ReadQuoted(s) == Some(([s[0]] + v, rest))
  {
  }

  /** Reading a rendered cell followed by a separator, or by nothing, gives
      the cell's value back and stops at the separator. */
  lemma ReadFieldBack(c: Cell, tail: string)
    requires CellReadable(c)
    requires tail == [] || IsSeparator(tail[0])
    ensures ReadField(RenderCell(c) + tail) == Some((c.value, tail))
  {
    if !NeedsQuoting(c.value) {
      PlainFieldBack(c.value, tail);
    } else {
      EscapeQuoted(c.value);
      QuotedFieldBack(c.value, tail);
    }
  }

  lemma PlainFieldBack(v: string, tail: string)
    requires !NeedsQuoting(v)
    requires tail == [] || IsSeparator(tail[0])
    ensures ReadField(v + tail) == Some((v, tail))
  {
    assert forall i :: 0 <= i < |v| ==> !IsSeparator(v[i]) by {
      forall i | 0 <= i < |v|
        ensures !IsSeparator(v[i])
      {
        assert !IsSpecial(v[i]);
      }
    }
    if v != [] {
      assert !IsSpecial(v[0]);
      assert (v + tail)[0] == v[0];
    } else {
      assert v + tail == tail;
    }
    ReadPlainBack(v, tail);
  }

  lemma QuotedFieldBack(v: string, tail: string)
    requires tail == [] || IsSeparator(tail[0])
    ensures ReadField("\"" + DoubleQuotes(v) + "\"" + tail) == Some((v, tail))
  {
    var body := DoubleQuotes(v) + "\"" + tail;
    OpeningQuote(DoubleQuotes(v), tail);
    ReadQuotedBack(v, tail);
    ReadQuotedField("\"" + body, v, tail);
  }

  lemma OpeningQuote(d: string, tail: string)
    ensures "\"" + d + "\"" + tail == "\"" + (d + "\"" + tail)
    ensures ("\"" + (d + "\"" + tail))[0] == '"'
    ensures ("\"" + (d + "\"" + tail))[1..] == d + "\"" + tail
  {
  }

  /** `ReadField` on a quoted field is `ReadQuoted` on what follows the
      opening quote, when that stops at a separator or the end. */
  lemma ReadQuotedField(s: string, v: string, rest: string)
    requires s != [] && s[0] == '"'
    requires ReadQuoted(s[1..]) == Some((v, rest))
    requires rest == [] || IsSeparator(rest[0])
    ensures ReadField(s) == Some((v, rest))
  {
  }

  /** `a.join(',') + '\n'` is the first field, then a comma and the rest
      joined, then the line feed. */
  lemma JoinStep(fields: seq<string>, tail: string)
    requires |fields| >= 2
    ensures JoinFields(fields) + "\n" + tail == fields[0] + ("," + (JoinFields(fields[1..]) + "\n" + tail))
  {
  }

  lemma JoinLast(fields: seq<string>, tail: string)
    requires |fields| == 1
    ensures JoinFields(fields) + "\n" + tail == fields[0] + ("\n" + tail)
  {
  }

  /** A record continues after a field that ends at a comma. */
  lemma ReadRecordCons(v: string, after: string, s: string)
    requires ReadField(s) == Some((v, "," + after))
    requires ReadRecord(after).Some?
    ensures ReadRecord(s) == Some(([v] + ReadRecord(after).value.0, ReadRecord(after).value.1))
  {
    assert ("," + after)[1..] == after;
  }

  /** A rendered row followed by any text reads back as one record holding
      the row's values; reading resumes after the row's line feed. */
  lemma {:induction false} ReadRecordBack(cells: seq<Cell>, tail: string)
    requires RowReadable(cells)
    ensures ReadRecord(RenderRow(cells) + tail) == Some((CellValues(cells), tail))
  {
    var fields := RenderCells(cells);
    if |cells| == 1 {
      JoinLast(fields, tail);
      ReadFieldBack(cells[0], "\n" + tail);
      assert ("\n" + tail)[1..] == tail;
      assert CellValues(cells) == [cells[0].value];
    } else {
      assert fields[1..] == RenderCells(cells[1..]);
      var after := RenderRow(cells[1..]) + tail;
      JoinStep(fields, tail);
      ReadFieldBack(cells[0], "," + after);
      ReadRecordBack(cells[1..], tail);
      ReadRecordCons(cells[0].value, after, RenderRow(cells) + tail);
      assert CellValues(cells) == [cells[0].value] + CellValues(cells[1..]);
    }
  }

  /** Rendered rows read back as their values, row by row. */
  lemma {:induction false} ReadRowsBack(rows: seq<seq<Cell>>)
    requires forall k :: 0 <= k < |rows| ==> RowReadable(rows[k])
    ensures ReadRecords(RenderRows(rows)) == Some(RowValues(rows))
  {
    if rows != [] {
      ReadRecordBack(rows[0], RenderRows(rows[1..]));
      ReadRowsBack(rows[1..]);
    }
  }

  // ---------------------------------------------------------------------------
  // The export's cells are readable

  /** The cells the export writes without escaping hold no comma, quote or
      line feed: the ids and the rendered dates of every feedback and every
      comment. */
  predicate VerbatimCellsPlain(fs: seq<Feedback>) {
    forall i :: 0 <= i < |fs| ==>
      && !NeedsQuoting(fs[i].id)
      && !NeedsQuoting(FormatDate(fs[i].createdAt))
      && forall j :: 0 <= j < |CommentsOf(fs[i])| ==>
           !NeedsQuoting(CommentsOf(fs[i])[j].id) && !NeedsQuoting(FormatDate(CommentsOf(fs[i])[j].createdAt))
  }

  /** `String(n)` never needs quoting. */
  lemma DecimalPlain(n: int)
    ensures !NeedsQuoting(IntToDecimal(n))
  {
    var s := IntToDecimal(n);
    forall i | 0 <= i < |s|
      ensures !IsSpecial(s[i])
    {
      if n < 0 && i > 0 {
        assert s[1..][i - 1] == s[i];
      }
    }
  }

  /** The rating and likes cells are numbers or empty, never quoted. */
  lemma NumberCellsPlain(f: Feedback)
    ensures !NeedsQuoting(RatingCell(f.rating)) && !NeedsQuoting(LikesCell(f.likes))
  {
    if f.rating.Some? {
      DecimalPlain(f.rating.value);
    }
    if f.likes.Some? {
      DecimalPlain(f.likes.value);
    }
  }

  /** The eight feedback cells read back when the id and date are plain. */
  lemma FeedbackCellsReadable(f: Feedback)
    requires !NeedsQuoting(f.id) && !NeedsQuoting(FormatDate(f.createdAt))
    ensures forall i :: 0 <= i < |FeedbackCells(f)| ==> CellReadable(FeedbackCells(f)[i])
  {
    NumberCellsPlain(f);
  }

  /** The four comment cells of a row read back when its comment's id and
      date are plain, and so do the empty cells of a lone row. */
  lemma CommentCellsReadable(f: Feedback, row: seq<Cell>)
    requires |row| == ColumnCount
    requires row[8..] == NoCommentCells
             || exists j :: 0 <= j < |CommentsOf(f)| && row[8..] == CommentCells(CommentsOf(f)[j])
                            && !NeedsQuoting(CommentsOf(f)[j].id)
                            && !NeedsQuoting(FormatDate(CommentsOf(f)[j].createdAt))
    ensures forall i :: 8 <= i < |row| ==> CellReadable(row[i])
  {
    assert !NeedsQuoting("");
    forall i | 8 <= i < |row|
      ensures CellReadable(row[i])
    {
      assert row[i] == row[8..][i - 8];
    }
  }

  lemma FeedbackRowsReadable(f: Feedback)
    requires !NeedsQuoting(f.id) && !NeedsQuoting(FormatDate(f.createdAt))
    requires forall j :: 0 <= j < |CommentsOf(f)| ==>
               !NeedsQuoting(CommentsOf(f)[j].id) && !NeedsQuoting(FormatDate(CommentsOf(f)[j].createdAt))
    ensures forall k :: 0 <= k < |FeedbackRows(f)| ==> RowReadable(FeedbackRows(f)[k])
  {
    FeedbackCellsReadable(f);
    var rows := FeedbackRows(f);
    forall k | 0 <= k < |rows|
      ensures RowReadable(rows[k])
    {
      var row := rows[k];
      if |CommentsOf(f)| == 0 {
        CommentCellsReadable(f, row);
      } else {
        assert row[8..] == CommentCells(CommentsOf(f)[k]);
        CommentCellsReadable(f, row);
      }
      forall i | 0 <= i < 8
        ensures CellReadable(row[i])
      {
        assert row[i] == row[..8][i];
      }
    }
  }

  lemma {:induction false} RowsReadable(fs: seq<Feedback>)
    requires VerbatimCellsPlain(fs)
    ensures forall k :: 0 <= k < |Rows(fs)| ==> RowReadable(Rows(fs)[k])
  {
    if fs != [] {
      var pre, f := fs[..|fs| - 1], fs[|fs| - 1];
      VerbatimCellsPlainPrefix(fs);
      RowsReadable(pre);
      FeedbackRowsReadable(f);
      ReadableRowsAppend(Rows(pre), FeedbackRows(f));
    }
  }

  lemma VerbatimCellsPlainPrefix(fs: seq<Feedback>)
    requires fs != [] && VerbatimCellsPlain(fs)
    ensures VerbatimCellsPlain(fs[..|fs| - 1])
  {
    var pre := fs[..|fs| - 1];
    forall i | 0 <= i < |pre|
      ensures pre[i] == fs[i]
    {
    }
  }

  lemma ReadableRowsAppend(a: seq<seq<Cell>>, b: seq<seq<Cell>>)
    requires forall k :: 0 <= k < |a| ==> RowReadable(a[k])
    requires forall k :: 0 <= k < |b| ==> RowReadable(b[k])
    ensures forall k :: 0 <= k < |a + b| ==> RowReadable((a + b)[k])
  {
    forall k | 0 <= k < |a + b|
      ensures RowReadable((a + b)[k])
    {
      if k < |a| {
        assert (a + b)[k] == a[k];
      } else {
        assert (a + b)[k] == b[k - |a|];
      }
    }
  }

  /** The column titles hold no comma, quote or line feed. */
  lemma HeaderPlain()
    ensures forall i :: 0 <= i < |HeaderColumns| ==> !NeedsQuoting(HeaderColumns[i])
  {
    FeedbackColumnsPlain();
    CommentColumnsPlain();
    forall i | 0 <= i < |HeaderColumns|
      ensures !NeedsQuoting(HeaderColumns[i])
    {
      if i < |FeedbackColumns| {
        assert HeaderColumns[i] == FeedbackColumns[i];
      } else {
        assert HeaderColumns[i] == CommentColumns[i - |FeedbackColumns|];
      }
    }
  }

  lemma FeedbackColumnsPlain()
    ensures forall i :: 0 <= i < |FeedbackColumns| ==> !NeedsQuoting(FeedbackColumns[i])
  {
  }

  lemma CommentColumnsPlain()
    ensures forall i :: 0 <= i < |CommentColumns| ==> !NeedsQuoting(CommentColumns[i])
  {
  }

  lemma {:induction false} VerbatimValues(ss: seq<string>)
    ensures CellValues(AsVerbatim(ss)) == ss
  {
    if ss != [] {
      VerbatimValues(ss[1..]);
      assert AsVerbatim(ss)[1..] == AsVerbatim(ss[1..]);
    }
  }

  /** Reading the exported text back gives the header titles, then one
      record per data row holding exactly the values the row was built
      from, in order — provided the ids and dates written without escaping
      hold no comma, quote or line feed. */
  lemma ExportReadsBack(fs: seq<Feedback>)
    requires VerbatimCellsPlain(fs)
    ensures ReadRecords(HeaderLine + ExportBody(fs)) == Some([HeaderColumns] + RowValues(Rows(fs)))
  {
    var header := AsVerbatim(HeaderColumns);
    var rows := [header] + Rows(fs);
    assert rows[1..] == Rows(fs);
    assert HeaderLine + ExportBody(fs) == RenderRows(rows);
    HeaderPlain();
    RowsReadable(fs);
    forall k | 0 <= k < |rows|
      ensures RowReadable(rows[k])
    {
      if k > 0 {
        assert rows[k] == Rows(fs)[k - 1];
      }
    }
    ReadRowsBack(rows);
    VerbatimValues(HeaderColumns);
    assert RowValues(rows) == [HeaderColumns] + RowValues(Rows(fs));
  }

  // ---------------------------------------------------------------------------
  // The data URI

  /** Splits at the first comma. */
  function SplitAtComma(s: string): (r: Option<(string, string)>)
    ensures r.None? <==> ',' !in s
    ensures r.Some? ==> s == r.value.0 + "," + r.value.1 && ',' !in r.value.0
  {
    if s == [] then None
    else if s[0] == ',' then Some(([], s[1..]))
    else
      match SplitAtComma(s[1..])
      case None => None
      case Some((head, rest)) => Some(([s[0]] + head, rest))
  }

  /** The shape section 3 of RFC 2397 gives a `data:` URI: the scheme, the
      media type, a comma, then the data. `None` for any other text. */
  function SplitDataUri(uri: string): (r: Option<(string, string)>)
    ensures r.Some? ==> uri == "data:" + r.value.0 + "," + r.value.1 && ',' !in r.value.0
  {
    if |uri| >= 5 && uri[..5] == "data:" then
      match SplitAtComma(uri[5..])
      case None => None
      case Some((mediaType, data)) => Some((mediaType, data))
    else None
  }

  lemma {:induction false} SplitAtCommaBack(head: string, rest: string)
    requires ',' !in head
    ensures SplitAtComma(head + "," + rest) == Some((head, rest))
  {
    if head == [] {
      assert head + "," + rest == "," + rest;
    } else {
      assert (head + "," + rest)[0] == head[0] && (head + "," + rest)[1..] == head[1..] + "," + rest;
      SplitAtCommaBack(head[1..], rest);
      assert [head[0]] + head[1..] == head;
    }
  }

  /** A `data:` URI splits back into the media type and the data it was
      built from. */
  lemma DataUriBack(mediaType: string, data: string)
    requires ',' !in mediaType
    ensures SplitDataUri("data:" + mediaType + "," + data) == Some((mediaType, data))
  {
    var uri := "data:" + mediaType + "," + data;
    SplitAtCommaBack(mediaType, data);
    assert uri[..5] == "data:";
    assert uri[5..] == mediaType + "," + data;
  }

  lemma MediaTypeHasNoComma()
    ensures ',' !in MediaType
  {
    assert forall i :: 0 <= i < |MediaType| ==> MediaType[i] != ',';
  }

  /** The exported content has the shape `data:<media type>,<data>`, with
      media type `text/csv;charset=utf-8` and the header line followed by the
      data rows as data. It holds spaces and line feeds, so it becomes a URI
      only once `encodeURI` escapes them. */
  lemma ExportIsDataUri(fs: seq<Feedback>)
    ensures SplitDataUri(ExportContent(fs)) == Some((MediaType, HeaderLine + ExportBody(fs)))
  {
    var data := HeaderLine + ExportBody(fs);
    MediaTypeHasNoComma();
    DataUriBack(MediaType, data);
    AppendAssoc(DataUriPrefix, HeaderLine, ExportBody(fs));
  }

  /** The content handed to `encodeURI`: `data:`, the CSV media type, a comma,
      then data whose records are the header titles and then the values of every data row,
      `max(1, c_i)` rows for feedback `i`. */
  lemma ExportRoundTrip(fs: seq<Feedback>)
    requires VerbatimCellsPlain(fs)
    ensures SplitDataUri(ExportContent(fs)).Some?
    ensures var (mediaType, data) := SplitDataUri(ExportContent(fs)).value;
            && mediaType == MediaType
            && ReadRecords(data) == Some([HeaderColumns] + RowValues(Rows(fs)))
            && |RowValues(Rows(fs))| == TotalRowCount(fs)
  {
    ExportIsDataUri(fs);
    ExportReadsBack(fs);
    RowCount(fs);
  }
}
