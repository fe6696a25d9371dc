/** The admin export (src/utils/csvExport.js): the CSV dialect `escapeCSV`
    writes (records end with a line feed, and a field is quoted only when it
    holds a comma, a quote or a line feed), timestamp formatting, and the
    accumulation of the CSV text,
    one row per comment and one row for a feedback without comments, behind
    the `data:` URI prefix of RFC 2397. */
module CsvExport {
  import opened Wrappers
  import opened Text
  import opened Domain

  /** The media type of the `data:` URI the content is offered under. */
  const MediaType: string := "text/csv;charset=utf-8"

  /** `data:text/csv;charset=utf-8,` */
  const DataUriPrefix: string := "data:" + MediaType + ","

  const ColumnCount: nat := 12

  /** The titles of the eight columns describing the feedback. */
  const FeedbackColumns: seq<string> := [
    "Feedback ID", "Author Name", "Author Email", "Rating", "Comment", "Suggestions",
    "Created At", "Likes"]

  /** The titles of the four columns describing one comment. */
  const CommentColumns: seq<string> := ["Comment ID", "Commenter Name", "Comment Text", "Comment Created At"]

  /** The column titles, in the order of every row. */
  const HeaderColumns: seq<string> := FeedbackColumns + CommentColumns

  /** The header line: the column titles joined by commas, then a line feed. */
  const HeaderLine: string := RenderRow(AsVerbatim(HeaderColumns))

  // ---------------------------------------------------------------------------
  // Field escaping

  /** The characters that make `escapeCSV` quote a field. A carriage return
      alone does not. */
  predicate IsSpecial(c: char) {
    c == ',' || c == '"' || c == '\n'
  }

  predicate NeedsQuoting(s: string) {
    exists i :: 0 <= i < |s| && IsSpecial(s[i])
  }

  /** `str.replace(/"/g, '""')`: every double quote doubled. */
  function DoubleQuotes(s: string): (r: string)
    ensures |r| >= |s|
  {
    if s == [] then [] else (if s[0] == '"' then "\"\"" else [s[0]]) + DoubleQuotes(s[1..])
  }

  /** Reads the inside of a quoted field: a doubled quote stands for one quote. */
  function CollapseQuotes(b: string): string {
    if |b| >= 2 && b[0] == '"' && b[1] == '"' then "\"" + CollapseQuotes(b[2..])
    else if b == [] then []
    else [b[0]] + CollapseQuotes(b[1..])
  }

  /** The inverse of escaping: strip the enclosing quotes of a quoted field and
      collapse its doubled quotes; any other field stands for itself. */
  function UnescapeField(f: string): string {
    if |f| >= 2 && f[0] == '"' && f[|f| - 1] == '"' then CollapseQuotes(f[1..|f| - 1]) else f
  }

  /** Every quote in `b` belongs to a pair of adjacent quotes. */
  predicate PairedQuotes(b: string) {
    if b == [] then true
    else if b[0] == '"' then |b| >= 2 && b[1] == '"' && PairedQuotes(b[2..])
    else PairedQuotes(b[1..])
  }

  /** A field of the dialect `escapeCSV` writes: either free of commas, quotes
      and line feeds (a carriage return may stand unquoted, unlike in
      RFC 4180), or enclosed in quotes with every inner quote doubled. */
  predicate IsCsvField(f: string) {
    || !NeedsQuoting(f)
    || (|f| >= 2 && f[0] == '"' && f[|f| - 1] == '"' && PairedQuotes(f[1..|f| - 1]))
  }

  lemma {:induction false} CollapseDoubled(s: string)
    ensures CollapseQuotes(DoubleQuotes(s)) == s
  {
    if s != [] {
      CollapseDoubled(s[1..]);
      var rest := DoubleQuotes(s[1..]);
      if s[0] == '"' {
        assert DoubleQuotes(s) == "\"\"" + rest;
        assert (DoubleQuotes(s))[2..] == rest;
      } else {
        assert DoubleQuotes(s) == [s[0]] + rest;
        assert (DoubleQuotes(s))[1..] == rest;
      }
    }
  }

  lemma {:induction false} DoubledArePaired(s: string)
    ensures PairedQuotes(DoubleQuotes(s))
  {
    if s != [] {
      DoubledArePaired(s[1..]);
      var rest := DoubleQuotes(s[1..]);
      if s[0] == '"' {
        assert (DoubleQuotes(s))[2..] == rest;
      } else {
        assert (DoubleQuotes(s))[1..] == rest;
      }
    }
  }

  /** A string without quotes is left alone by `CollapseQuotes`. */
  lemma {:induction false} CollapseQuoteFree(s: string)
    requires forall i :: 0 <= i < |s| ==> s[i] != '"'
    ensures CollapseQuotes(s) == s
  {
    if s != [] {
      CollapseQuoteFree(s[1..]);
    }
  }

  /** `escapeCSV`: null and undefined become the empty field; a value holding a
      comma, a quote or a line feed is quoted with its quotes doubled; any
      other value is written as it is. The result is a well-formed field of
      that dialect, from which unescaping recovers the value. */
  function EscapeCsv(field: Option<string>): (r: string)
    ensures field.None? ==> r == ""
    ensures field.Some? ==> IsCsvField(r) && UnescapeField(r) == field.value
    ensures field.Some? ==> (r == field.value <==> !NeedsQuoting(field.value))
  {
    match field
    case None => ""
    case Some(str) =>
      if NeedsQuoting(str) then
        var r := "\"" + DoubleQuotes(str) + "\"";
        assert r[1..|r| - 1] == DoubleQuotes(str);
        CollapseDoubled(str);
        DoubledArePaired(str);
        r
      else
        CollapseQuoteFree(str);
        str
  }

  /** The worked example of the escaping rule: `a,b"c` becomes `"a,b""c"`. */
  lemma EscapeExample()
    ensures EscapeCsv(Some("a,b\"c")) == "\"a,b\"\"c\""
  {
    var s := "a,b\"c";
    assert IsSpecial(s[1]);
    EscapeQuoted(s);
    ExampleDoubled();
  }

  /** A value that needs quoting is written inside quotes, its quotes doubled. */
  lemma EscapeQuoted(str: string)
    requires NeedsQuoting(str)
    ensures EscapeCsv(Some(str)) == "\"" + DoubleQuotes(str) + "\""
  {
  }

  lemma ExampleDoubled()
    ensures DoubleQuotes("a,b\"c") == "a,b\"\"c"
  {
    var s: string := "a,b\"c";
    var free: string := "a,b";
    assert s == free + ['"'] + ['c'];
    DoubleQuotesAppend(free + ['"'], ['c']);
    DoubleQuotesAppend(free, ['"']);
    DoubleQuotesQuoteFree(free);
    DoubleQuotesQuoteFree(['c']);
    assert DoubleQuotes(['"']) == ['"', '"'];
  }

  lemma {:induction false} DoubleQuotesAppend(a: string, b: string)
    ensures DoubleQuotes(a + b) == DoubleQuotes(a) + DoubleQuotes(b)
  {
    if a != [] {
      assert (a + b)[1..] == a[1..] + b;
      DoubleQuotesAppend(a[1..], b);
    } else {
      assert a + b == b;
    }
  }

  lemma {:induction false} DoubleQuotesQuoteFree(s: string)
    requires forall i :: 0 <= i < |s| ==> s[i] != '"'
    ensures DoubleQuotes(s) == s
  {
    if s != [] {
      DoubleQuotesQuoteFree(s[1..]);
    }
  }

  /** A bare carriage return is not a reason to quote: `a\rb` is written as
      it is. */
  lemma BareCarriageReturnUnquoted()
    ensures EscapeCsv(Some("a\rb")) == "a\rb"
  {
    var v := "a\rb";
    assert !NeedsQuoting(v) by {
      forall i | 0 <= i < |v|
        ensures !IsSpecial(v[i])
      {
      }
    }
  }

  // ---------------------------------------------------------------------------
  // Cell values

  /** `formatDate`'s handling of a date object: `toISOString`, whose RangeError
      on an invalid date is caught and turned into the empty string. */
  function IsoOrEmpty(d: DateValue): string {
    match d
    case ValidDate(iso) => iso
    case InvalidDate => ""
  }

  /** `formatDate`: the empty string for a falsy timestamp, for a value that
      is neither a Firestore timestamp nor a `Date`, and for an invalid date;
      otherwise the ISO rendering of the date. It never fails. */
  function FormatDate(ts: Timestamp): (r: string)
    ensures ts.NoTimestamp? || ts.OtherValue? ==> r == ""
    ensures ts.FirestoreTimestamp? ==> r == IsoOrEmpty(ts.toDate)
    ensures ts.JsDate? ==> r == IsoOrEmpty(ts.date)
  {
    match ts
    case NoTimestamp => ""
    case FirestoreTimestamp(d) => IsoOrEmpty(d)
    case JsDate(d) => IsoOrEmpty(d)
    case OtherValue => ""
  }

  /** The date a timestamp carries: what `toDate()` returns for a Firestore
      timestamp, the `Date` itself, and none for any other value. */
  function DateOf(ts: Timestamp): (d: Option<DateValue>)
    ensures d.Some? <==> ts.FirestoreTimestamp? || ts.JsDate?
    ensures ts.FirestoreTimestamp? ==> d == Some(ts.toDate)
    ensures ts.JsDate? ==> d == Some(ts.date)
  {
    match ts
    case FirestoreTimestamp(d) => Some(d)
    case JsDate(d) => Some(d)
    case _ => None
  }

  /** `formatDate` never fails: a non-empty cell is the ISO text of a valid
      date the timestamp carries, and a valid date is always written as its
      ISO text. Everything else gives the empty cell. */
  lemma FormatDateIsIso(ts: Timestamp)
    ensures FormatDate(ts) != "" ==> DateOf(ts) == Some(ValidDate(FormatDate(ts)))
    ensures DateOf(ts).Some? && DateOf(ts).value.ValidDate? ==> FormatDate(ts) == DateOf(ts).value.iso
    ensures DateOf(ts).None? || DateOf(ts).value.InvalidDate? ==> FormatDate(ts) == ""
  {
  }

  /** `x || ''` on an optional text field. */
  function OrEmpty(o: Option<string>): string {
    o.GetOr("")
  }

  /** `feedback.rating || ''`: an absent or zero rating gives an empty cell,
      any other rating its decimal rendering. */
  function RatingCell(rating: Option<int>): (r: string)
    ensures r == "" <==> rating.None? || rating.value == 0
    ensures rating.Some? && rating.value > 0 ==>
              AllDigits(r) && DecimalValue(r) == rating.value && (|r| > 1 ==> r[0] != '0')
  {
    match rating
    case None => ""
    case Some(n) =>
      if n == 0 then ""
      else if n > 0 then DecimalRoundTrip(n); IntToDecimal(n)
      else IntToDecimal(n)
  }

  /** `feedback.likes || 0`: an absent or zero count is written as `0`. */
  function LikesCell(likes: Option<int>): (r: string)
    ensures likes.None? || likes.value == 0 ==> r == "0"
    ensures likes.Some? && likes.value >= 0 ==>
              AllDigits(r) && DecimalValue(r) == likes.value && (|r| > 1 ==> r[0] != '0')
  {
    match likes
    case None => "0"
    case Some(n) =>
      if n >= 0 then DecimalRoundTrip(n); IntToDecimal(n)
      else IntToDecimal(n)
  }

  /** Both numeric cells are `String` of the value whenever it is not falsy,
      so negative values too are written as `String` writes them. */
  lemma NumberCellsAreString(rating: Option<int>, likes: Option<int>)
    ensures rating.Some? && rating.value != 0 ==> RatingCell(rating) == IntToDecimal(rating.value)
    ensures likes.Some? && likes.value != 0 ==> LikesCell(likes) == IntToDecimal(likes.value)
  {
  }

  // ---------------------------------------------------------------------------
  // Rows

  /** A cell of a row: either written verbatim (the ids, the rating, the
      dates, the likes and the literal empty cells) or passed through
      `escapeCSV` (the free-text fields). */
  datatype Cell = Verbatim(value: string) | Escaped(value: string)

  /** Cells written as they are. */
  function AsVerbatim(ss: seq<string>): (cells: seq<Cell>)
    ensures |cells| == |ss|
    ensures forall i :: 0 <= i < |ss| ==> cells[i] == Verbatim(ss[i])
  {
    if ss == [] then [] else [Verbatim(ss[0])] + AsVerbatim(ss[1..])
  }

  function RenderCell(c: Cell): string {
    match c
    case Verbatim(s) => s
    case Escaped(s) => EscapeCsv(Some(s))
  }

  /** The eight feedback columns every row of a feedback starts with. */
  function FeedbackCells(f: Feedback): seq<Cell> {
    [ Verbatim(f.id),
      Escaped(OrEmpty(f.authorName)),
      Escaped(OrEmpty(f.authorEmail)),
      Verbatim(RatingCell(f.rating)),
      Escaped(OrEmpty(f.comment)),
      Escaped(OrEmpty(f.suggestions)),
      Verbatim(FormatDate(f.createdAt)),
      Verbatim(LikesCell(f.likes)) ]
  }

  /** The four comment columns of a row for one comment. */
  function CommentCells(c: Comment): seq<Cell> {
    [ Verbatim(c.id),
      Escaped(OrEmpty(c.commenterName)),
      Escaped(OrEmpty(c.text)),
      Verbatim(FormatDate(c.createdAt)) ]
  }

  /** The four comment columns of the row of a feedback without comments. */
  const NoCommentCells: seq<Cell> := [Verbatim(""), Verbatim(""), Verbatim(""), Verbatim("")]

  /** The comments the exporter iterates over: a missing list counts as empty. */
  function CommentsOf(f: Feedback): seq<Comment> {
    match f.comments
    case Some(cs) => cs
    case None => []
  }

  /** The rows one feedback contributes: one per comment, in comment order,
      or a single row with empty comment columns when it has none. */
  function FeedbackRows(f: Feedback): (rows: seq<seq<Cell>>)
    ensures |rows| == RowCountOf(f)
    ensures forall j :: 0 <= j < |rows| ==> |rows[j]| == ColumnCount && rows[j][..8] == FeedbackCells(f)
    ensures |CommentsOf(f)| == 0 ==> rows[0][8..] == NoCommentCells
    ensures forall j :: 0 <= j < |CommentsOf(f)| ==> rows[j][8..] == CommentCells(CommentsOf(f)[j])
  {
    var cs := CommentsOf(f);
    if |cs| > 0 then
      seq(|cs|, j requires 0 <= j < |cs| => FeedbackCells(f) + CommentCells(cs[j]))
    else
      [FeedbackCells(f) + NoCommentCells]
  }

  /** `max(1, number of comments)`. */
  function RowCountOf(f: Feedback): nat {
    if |CommentsOf(f)| == 0 then 1 else |CommentsOf(f)|
  }

  /** The sum of `max(1, c_i)` over the feedback. */
  function TotalRowCount(fs: seq<Feedback>): nat {
    if fs == [] then 0 else TotalRowCount(fs[..|fs| - 1]) + RowCountOf(fs[|fs| - 1])
  }

  /** All data rows, feedback by feedback in input order. */
  function Rows(fs: seq<Feedback>): seq<seq<Cell>> {
    if fs == [] then [] else Rows(fs[..|fs| - 1]) + FeedbackRows(fs[|fs| - 1])
  }

  /** The number of data rows is the sum over the feedback of `max(1, c_i)`. */
  lemma {:induction false} RowCount(fs: seq<Feedback>)
    ensures |Rows(fs)| == TotalRowCount(fs)
  {
    if fs != [] {
      RowCount(fs[..|fs| - 1]);
    }
  }

  /** Every data row has the twelve columns of the header. */
  lemma {:induction false} RowsHaveTwelveCells(fs: seq<Feedback>)
    ensures forall r :: r in Rows(fs) ==> |r| == ColumnCount
  {
    if fs != [] {
      RowsHaveTwelveCells(fs[..|fs| - 1]);
    }
  }

  /** The rows of a concatenation are the rows of its parts, in order. */
  lemma {:induction false} RowsAppend(a: seq<Feedback>, b: seq<Feedback>)
    ensures Rows(a + b) == Rows(a) + Rows(b)
  {
    if b != [] {
      var b' := b[..|b| - 1];
      assert (a + b)[..|a + b| - 1] == a + b';
      RowsAppend(a, b');
    } else {
      assert a + b == a;
    }
  }

  lemma RowsSnoc(fs: seq<Feedback>, f: Feedback)
    ensures Rows(fs + [f]) == Rows(fs) + FeedbackRows(f)
  {
    assert (fs + [f])[..|fs|] == fs;
  }

  /** The rows of the feedback before `i`, then those of `i`, then the rest. */
  lemma {:induction false} RowsAround(fs: seq<Feedback>, i: nat)
    requires i < |fs|
    ensures Rows(fs) == Rows(fs[..i]) + FeedbackRows(fs[i]) + Rows(fs[i + 1..])
  {
    var pre, rest := fs[..i], fs[i + 1..];
    assert fs == (pre + [fs[i]]) + rest;
    RowsAppend(pre + [fs[i]], rest);
    RowsSnoc(pre, fs[i]);
  }

  lemma AppendAssoc<T>(a: seq<T>, b: seq<T>, c: seq<T>)
    ensures (a + b) + c == a + (b + c)
  {
  }

  lemma TakeAll<T>(s: seq<T>)
    ensures s[..|s|] == s
  {
  }

  lemma TakeOneMore<T>(s: seq<T>, j: nat)
    requires j < |s|
    ensures s[..j + 1] == s[..j] + [s[j]]
  {
  }

  lemma IndexInMiddle<T>(all: seq<T>, a: seq<T>, b: seq<T>, c: seq<T>, n: nat, j: nat)
    requires all == a + b + c && |a| == n && j < |b|
    ensures n + j < |all| && all[n + j] == b[j]
  {
  }

  /** Row `j` of feedback `i` sits right after the rows of the feedback before
      it: the export keeps the order of the feedback and of their comments. */
  lemma {:induction false} RowPosition(fs: seq<Feedback>, i: nat, j: nat)
    requires i < |fs| && j < RowCountOf(fs[i])
    ensures TotalRowCount(fs[..i]) + j < |Rows(fs)|
    ensures Rows(fs)[TotalRowCount(fs[..i]) + j] == FeedbackRows(fs[i])[j]
  {
    RowsAround(fs, i);
    RowCount(fs[..i]);
    IndexInMiddle(Rows(fs), Rows(fs[..i]), FeedbackRows(fs[i]), Rows(fs[i + 1..]), TotalRowCount(fs[..i]), j);
  }

  // ---------------------------------------------------------------------------
  // Rendering

  function RenderCells(cells: seq<Cell>): (fields: seq<string>)
    ensures |fields| == |cells|
    ensures forall i :: 0 <= i < |cells| ==> fields[i] == RenderCell(cells[i])
  {
    seq(|cells|, i requires 0 <= i < |cells| => RenderCell(cells[i]))
  }

  /** `Array.prototype.join(',')`. */
  function JoinFields(fields: seq<string>): string {
    if |fields| == 0 then ""
    else if |fields| == 1 then fields[0]
    else fields[0] + "," + JoinFields(fields[1..])
  }

  /** `row.join(',') + '\n'`. */
  function RenderRow(cells: seq<Cell>): string {
    JoinFields(RenderCells(cells)) + "\n"
  }

  function RenderRows(rows: seq<seq<Cell>>): string {
    if rows == [] then "" else RenderRow(rows[0]) + RenderRows(rows[1..])
  }

  lemma {:induction false} RenderRowsAppend(a: seq<seq<Cell>>, b: seq<seq<Cell>>)
    ensures RenderRows(a + b) == RenderRows(a) + RenderRows(b)
  {
    if a == [] {
      assert a + b == b;
    } else {
      assert (a + b)[1..] == a[1..] + b;
      RenderRowsAppend(a[1..], b);
    }
  }

  lemma RenderRowsSnoc(rows: seq<seq<Cell>>, row: seq<Cell>)
    ensures RenderRows(rows + [row]) == RenderRows(rows) + RenderRow(row)
  {
    RenderRowsAppend(rows, [row]);
    assert [row][1..] == [];
  }

  /** The data rows as text. */
  function ExportBody(fs: seq<Feedback>): string {
    RenderRows(Rows(fs))
  }

  /** The whole content handed to the download link. */
  function ExportContent(fs: seq<Feedback>): string {
    DataUriPrefix + HeaderLine + ExportBody(fs)
  }

  /** One step of the inner loop: the row of comment `j` extends the rows of
      the comments before it. */
  lemma AppendCommentRow(before: string, f: Feedback, j: nat)
    requires j < |CommentsOf(f)|
    ensures (before + RenderRows(FeedbackRows(f)[..j]))
              + (JoinFields(RenderCells(FeedbackCells(f) + CommentCells(CommentsOf(f)[j]))) + "\n")
            == before + RenderRows(FeedbackRows(f)[..j + 1])
  {
    var rows := FeedbackRows(f);
    assert rows[j] == FeedbackCells(f) + CommentCells(CommentsOf(f)[j]);
    RenderRowsSnoc(rows[..j], rows[j]);
    TakeOneMore(rows, j);
    AppendAssoc(before, RenderRows(rows[..j]), RenderRow(rows[j]));
  }

  /** One step of the outer loop: feedback `i` appends its rows. */
  lemma FeedbackStep(start: string, fs: seq<Feedback>, i: nat)
    requires i < |fs|
    ensures (start + ExportBody(fs[..i])) + RenderRows(FeedbackRows(fs[i])) == start + ExportBody(fs[..i + 1])
  {
    TakeOneMore(fs, i);
    ExportBodySnoc(fs[..i], fs[i]);
    AppendAssoc(start, ExportBody(fs[..i]), RenderRows(FeedbackRows(fs[i])));
  }

  /** The text of a feedback without comments is its single row. */
  lemma LoneRowRendered(f: Feedback)
    requires |CommentsOf(f)| == 0
    ensures JoinFields(RenderCells(FeedbackCells(f) + NoCommentCells)) + "\n" == RenderRows(FeedbackRows(f))
  {
    var row := FeedbackCells(f) + NoCommentCells;
    assert FeedbackRows(f) == [row];
    assert [row][1..] == [];
  }

  /** Appending a feedback appends its rows to the text. */
  lemma ExportBodySnoc(fs: seq<Feedback>, f: Feedback)
    ensures ExportBody(fs + [f]) == ExportBody(fs) + RenderRows(FeedbackRows(f))
  {
    RowsSnoc(fs, f);
    RenderRowsAppend(Rows(fs), FeedbackRows(f));
  }

  /** The callback `exportToCSV` runs for one feedback: it appends one row
      per comment, or a single row with empty comment cells. */
  method AppendFeedback(before: string, feedback: Feedback) returns (csvContent: string)
    ensures csvContent == before + RenderRows(FeedbackRows(feedback))
  {
    csvContent := before;
    ghost var rows := FeedbackRows(feedback);
    if feedback.comments.Some? && |feedback.comments.value| > 0 {
      var comments := feedback.comments.value;
      assert comments == CommentsOf(feedback);
      var j := 0;
      while j < |comments|
        invariant 0 <= j <= |comments| == |rows|
        invariant csvContent == before + RenderRows(rows[..j])
      {
        var row := RenderCells(FeedbackCells(feedback) + CommentCells(comments[j]));
        AppendCommentRow(before, feedback, j);
        csvContent := csvContent + (JoinFields(row) + "\n");
        j := j + 1;
      }
      TakeAll(rows);
    } else {
      var row := RenderCells(FeedbackCells(feedback) + NoCommentCells);
      LoneRowRendered(feedback);
      csvContent := csvContent + (JoinFields(row) + "\n");
    }
  }

  /** `exportToCSV` without the download: the content starts with the `data:`
      prefix and the header line, then every feedback appends its rows in
      turn. */
  method ExportToCsv(feedbacks: seq<Feedback>) returns (csvContent: string)
    ensures csvContent == ExportContent(feedbacks)
  {
    csvContent := DataUriPrefix;
    csvContent := csvContent + HeaderLine;
    ghost var start := csvContent;
    var i := 0;
    assert feedbacks[..0] == [];
    while i < |feedbacks|
      invariant 0 <= i <= |feedbacks|
      invariant csvContent == start + ExportBody(feedbacks[..i])
    {
      csvContent := AppendFeedback(csvContent, feedbacks[i]);
      FeedbackStep(start, feedbacks, i);
      i := i + 1;
    }
    assert feedbacks[..i] == feedbacks;
  }
}
