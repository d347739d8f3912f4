/**
 * The CSV text of the ledger: a fixed header line, then one line per
 * record in ledger order. A parser reads the text back; the round trip
 * recovers every exported field of every record, in order, as long as no
 * text field holds a line break and no category holds a comma (the export
 * escapes neither).
 */
module Csv {
  import opened Wrappers
  import opened Text
  import opened Records
  import opened Format

  const Header: string := "Date,Description,Amount,Type,Category\n"

  /** A text in double quotes; quotes inside it are not escaped. */
  function Quoted(s: string): string {
    "\"" + s + "\""
  }

  /** The five fields of one record, comma-separated, in column order. */
  function Row(t: Transaction): string {
    FormatDate(t.date) + "," + Quoted(t.description) + "," + AmountText(t.amount) + ","
    + KindName(t.kind) + "," + t.category
  }

  /** One exported line: the row and its terminator. */
  function Line(t: Transaction): string {
    Row(t) + "\n"
  }

  /** The lines of the records, in ledger order. */
  function Body(ts: seq<Transaction>): string {
    ConcatMap(ts, Line)
  }

  /** The whole export. */
  function CsvText(ts: seq<Transaction>): string {
    Header + Body(ts)
  }

  /** Reads the `date,"description"` prefix of a line. */
  function ParseHead(head: string): Option<(Date, string)> {
    if |head| >= 13 && head[10] == ',' && head[11] == '"' && head[|head| - 1] == '"' then
      match ParseDate(head[..10])
      case None => None
      case Some(d) => Some((d, head[12..|head| - 1]))
    else None
  }

  /**
   * Reads one terminated line. The last three commas delimit category,
   * type and amount, so the description may itself hold commas and quotes.
   */
  function ParseLine(line: string): Option<Draft> {
    if |line| == 0 || line[|line| - 1] != '\n' then None
    else
      match SplitLast(line[..|line| - 1], ',')
      case None => None
      case Some((rest, category)) =>
        match SplitLast(rest, ',')
        case None => None
        case Some((rest', kindText)) =>
          match SplitLast(rest', ',')
          case None => None
          case Some((head, amountText)) =>
            match (ParseHead(head), ParseAmount(amountText), ParseKind(kindText))
            case (Some((date, description)), Some(amount), Some(kind)) =>
              Some(Draft(date, description, amount, kind, category))
            case _ => None
  }

  /** Reads a sequence of terminated lines. */
  function ParseBody(s: string): Option<seq<Draft>>
    decreases |s|
  {
    if s == [] then Some([])
    else
      match IndexOf(s, '\n')
      case None => None
      case Some(i) =>
        match (ParseLine(s[..i + 1]), ParseBody(s[i + 1..]))
        case (Some(d), Some(ds)) => Some([d] + ds)
        case _ => None
  }

  /** Reads a whole export: the header, then the records' lines. */
  function ParseCsv(s: string): Option<seq<Draft>> {
    if |s| >= |Header| && s[..|Header|] == Header then ParseBody(s[|Header|..]) else None
  }

  /** The records' exported fields, id dropped, in ledger order. */
  function Drafts(ts: seq<Transaction>): (ds: seq<Draft>)
    ensures |ds| == |ts|
    ensures forall i :: 0 <= i < |ts| ==> ds[i] == DraftOf(ts[i])
  {
    if ts == [] then [] else [DraftOf(ts[0])] + Drafts(ts[1..])
  }

  /** A record whose line reads back unambiguously. */
  predicate Exportable(t: Transaction) {
    IsCalendarDate(t.date) && t.date.year <= 9999
    && '\n' !in t.description && '\n' !in t.category && ',' !in t.category
  }

  /** The export of an empty ledger is the header line alone. */
  lemma CsvOfEmpty()
    ensures CsvText([]) == "Date,Description,Amount,Type,Category\n"
  {
  }

  /** Line `k` of the body is the line of record `k`, between the lines before and after it. */
  lemma BodyLineAt(ts: seq<Transaction>, k: nat)
    requires k < |ts|
    ensures Body(ts) == Body(ts[..k]) + Line(ts[k]) + Body(ts[k + 1..])
  {
    ConcatMapAt(ts, k, Line);
  }

  /** Extending the ledger prefix by one record appends that record's line to the export. */
  lemma CsvSnoc(ts: seq<Transaction>, i: nat)
    requires i < |ts|
    ensures CsvText(ts[..i + 1]) == CsvText(ts[..i]) + Line(ts[i])
  {
    ConcatMapSnoc(ts, i, Line);
    AppendAssoc(Header, Body(ts[..i]), Line(ts[i]));
  }

  /** A record put in front of the ledger exports as the first line after the header. */
  lemma CsvOfPrepend(t: Transaction, ts: seq<Transaction>)
    ensures CsvText([t] + ts) == Header + (Line(t) + Body(ts))
  {
    assert ([t] + ts)[1..] == ts;
  }

  lemma ParseHeadRoundTrip(d: Date, description: string)
    requires IsCalendarDate(d) && d.year <= 9999
    ensures ParseHead(FormatDate(d) + "," + Quoted(description)) == Some((d, description))
  {
    var date := FormatDate(d);
    var head := date + "," + Quoted(description);
    DateRoundTrip(d);
    assert head[..10] == date;
    assert head[12..|head| - 1] == description;
  }

  /** One line reads back as the record's exported fields. */
  lemma LineRoundTrip(t: Transaction)
    requires Exportable(t)
    ensures ParseLine(Line(t)) == Some(DraftOf(t))
  {
    var head := FormatDate(t.date) + "," + Quoted(t.description);
    var amount := AmountText(t.amount);
    var kind := KindName(t.kind);
    var rest' := head + "," + amount;
    var rest := rest' + "," + kind;
    assert Row(t) == rest + "," + t.category;
    assert Line(t)[..|Line(t)| - 1] == Row(t);
    assert ',' !in kind;
    AmountTextPlain(t.amount);
    SplitLastAt(rest, ',', t.category);
    SplitLastAt(rest', ',', kind);
    SplitLastAt(head, ',', amount);
    ParseHeadRoundTrip(t.date, t.description);
    AmountRoundTrip(t.amount);
  }

  /** The body of a nonempty ledger starts with the line of its first record. */
  lemma BodyFirst(ts: seq<Transaction>)
    requires ts != []
    ensures Body(ts) == Row(ts[0]) + "\n" + Body(ts[1..])
  {
  }

  /** A line followed by more lines parses as its record followed by theirs. */
  lemma ParseBodyStep(row: string, rest: string, d: Draft, ds: seq<Draft>)
    requires '\n' !in row
    requires ParseLine(row + "\n") == Some(d) && ParseBody(rest) == Some(ds)
    ensures ParseBody(row + "\n" + rest) == Some([d] + ds)
  {
    var s := row + "\n" + rest;
    SplitFirstAt(row, '\n', rest);
    assert s[..|row| + 1] == row + "\n";
  }

  lemma {:induction false} BodyRoundTrip(ts: seq<Transaction>)
    requires forall i :: 0 <= i < |ts| ==> Exportable(ts[i])
    ensures ParseBody(Body(ts)) == Some(Drafts(ts))
  {
    if ts != [] {
      var t := ts[0];
      assert Exportable(t);
      RowWithoutNewline(t);
      LineRoundTrip(t);
      assert forall i :: 0 <= i < |ts[1..]| ==> ts[1..][i] == ts[i + 1];
      BodyRoundTrip(ts[1..]);
      BodyFirst(ts);
      ParseBodyStep(Row(t), Body(ts[1..]), DraftOf(t), Drafts(ts[1..]));
    }
  }

  /**
   * Reading an export back yields, in ledger order, every record's date,
   * description, amount, type and category (the id is not exported).
   */
  lemma CsvRoundTrip(ts: seq<Transaction>)
    requires forall i :: 0 <= i < |ts| ==> Exportable(ts[i])
    ensures ParseCsv(CsvText(ts)) == Some(Drafts(ts))
  {
    var s := CsvText(ts);
    assert s[..|Header|] == Header;
    assert s[|Header|..] == Body(ts);
    BodyRoundTrip(ts);
  }

  /** A row holds a line break only where its description or category does. */
  lemma RowWithoutNewline(t: Transaction)
    requires '\n' !in t.description && '\n' !in t.category
    ensures '\n' !in Row(t)
  {
    DateTextPlain(t.date);
    AmountTextPlain(t.amount);
    FieldsWithoutNewline(FormatDate(t.date), t.description, AmountText(t.amount), KindName(t.kind), t.category);
  }

  /** Joining line-free fields with commas and quotes adds no line break. */
  lemma FieldsWithoutNewline(date: string, description: string, amount: string, kind: string, category: string)
    requires '\n' !in date && '\n' !in description && '\n' !in amount && '\n' !in kind && '\n' !in category
    ensures '\n' !in date + "," + Quoted(description) + "," + amount + "," + kind + "," + category
  {
  }

  lemma LineNewlines(t: Transaction)
    ensures Count(Line(t), '\n') == 1 + Count(t.description, '\n') + Count(t.category, '\n')
  {
    var date := FormatDate(t.date);
    var quoted := Quoted(t.description);
    var amount := AmountText(t.amount);
    var kind := KindName(t.kind);
    DateTextPlain(t.date);
    AmountTextPlain(t.amount);
    CountAbsent(date, '\n');
    CountAbsent(amount, '\n');
    CountAbsent(kind, '\n');
    CountConcat("\"" + t.description, "\"", '\n');
    CountConcat("\"", t.description, '\n');
    CountConcat(date, ",", '\n');
    CountConcat(date + ",", quoted, '\n');
    CountConcat(date + "," + quoted, ",", '\n');
    CountConcat(date + "," + quoted + ",", amount, '\n');
    CountConcat(date + "," + quoted + "," + amount, ",", '\n');
    CountConcat(date + "," + quoted + "," + amount + ",", kind, '\n');
    CountConcat(date + "," + quoted + "," + amount + "," + kind, ",", '\n');
    CountConcat(date + "," + quoted + "," + amount + "," + kind + ",", t.category, '\n');
    CountConcat(Row(t), "\n", '\n');
  }

  lemma {:induction false} BodyLineCount(ts: seq<Transaction>)
    requires forall i :: 0 <= i < |ts| ==> '\n' !in ts[i].description && '\n' !in ts[i].category
    ensures Count(Body(ts), '\n') == |ts|
  {
    if ts != [] {
      LineNewlines(ts[0]);
      CountAbsent(ts[0].description, '\n');
      CountAbsent(ts[0].category, '\n');
      CountConcat(Line(ts[0]), Body(ts[1..]), '\n');
      assert forall i :: 0 <= i < |ts[1..]| ==> ts[1..][i] == ts[i + 1];
      BodyLineCount(ts[1..]);
    }
  }

  /** The header is one terminated line. */
  lemma HeaderNewlines()
    ensures Count(Header, '\n') == 1
  {
    var names := "Date,Description,Amount,Type,Category";
    assert Header == names + "\n";
    CountAbsent(names, '\n');
    CountConcat(names, "\n", '\n');
  }

  /**
   * With no line break inside a text field, the export has one terminated
   * line per record after the header.
   */
  lemma CsvLineCount(ts: seq<Transaction>)
    requires forall i :: 0 <= i < |ts| ==> '\n' !in ts[i].description && '\n' !in ts[i].category
    ensures Count(CsvText(ts), '\n') == |ts| + 1
  {
    BodyLineCount(ts);
    CountConcat(Header, Body(ts), '\n');
    HeaderNewlines();
  }

  /**
   * The description is quoted but not escaped: a line break inside it
   * ends the record's line early, so the export of a one-record ledger
   * then has at least three terminated lines instead of two.
   */
  lemma UnescapedNewlineSplitsRecord(t: Transaction)
    requires '\n' in t.description
    ensures Count(CsvText([t]), '\n') >= 3
  {
    LineNewlines(t);
    CountPresent(t.description, '\n');
    BodyFirst([t]);
    assert [t][1..] == [];
    CountConcat(Line(t), Body([]), '\n');
    CountConcat(Header, Body([t]), '\n');
    HeaderNewlines();
  }
}
