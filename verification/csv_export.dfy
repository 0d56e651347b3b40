/**
 * The text `handleExport` of app/settings/page.tsx builds from the fetched
 * records: a byte-order mark, Excel's separator line, a header line and one
 * line per record. The host's number and date rendering are the parameters
 * `amountText` and `dateText`.
 */
module CsvExport {
  import opened Calendar
  import opened Text
  import opened Domain

  /** U+FEFF, put in front of the text so that spreadsheets read it as UTF-8. */
  const Bom: char := '\U{FEFF}'

  /** The line telling a spreadsheet that fields are separated by commas. */
  const SepLine: string := "sep=,"

  const Headers: seq<string> := ["Title", "Amount", "Type", "Category", "Date"]

  /** The header line, as `headers.join(',')` writes it. */
  const HeaderLine: string := "Title,Amount,Type,Category,Date"

  /** The header line is the column names joined by commas, in header order. */
  lemma HeaderLineJoinsHeaders()
    ensures Join(Headers, ',') == HeaderLine
  {
    JoinFive("Title", "Amount", "Type", "Category", "Date", ',');
  }

  /** Splitting the header line at commas gives back the column names. */
  lemma HeaderLineFields()
    ensures Split(HeaderLine, ',') == Headers
  {
    HeaderLineJoinsHeaders();
    assert SeparatorFree(Headers, ',');
    SplitJoin(Headers, ',');
  }

  /** A five-part join written out. */
  lemma JoinFive(a: string, b: string, c: string, d: string, e: string, sep: char)
    ensures Join([a, b, c, d, e], sep) == a + [sep] + b + [sep] + c + [sep] + d + [sep] + e
  {
    JoinCons(d, [e], sep);
    assert [c, d, e] == [c] + [d, e];
    JoinCons(c, [d, e], sep);
    assert [b, c, d, e] == [b] + [c, d, e];
    JoinCons(b, [c, d, e], sep);
    assert [a, b, c, d, e] == [a] + [b, c, d, e];
    JoinCons(a, [b, c, d, e], sep);
  }

  /** `"${text}"`: the text between double quotes, nothing inside escaped. */
  function Quote(text: string): (q: string)
    ensures |q| == |text| + 2 && q[0] == '"' && q[|q| - 1] == '"' && q[1..|q| - 1] == text
  {
    "\"" + text + "\""
  }

  /** The five fields of a record's line, in header order. */
  function Fields(t: Transaction, amountText: int -> string, dateText: Date -> string): (fs: seq<string>)
    ensures |fs| == |Headers|
  {
    [Quote(t.title), amountText(t.amount), t.txType, Quote(t.category), dateText(t.date)]
  }

  /** A record's line: its fields joined by commas. */
  function Line(t: Transaction, amountText: int -> string, dateText: Date -> string): string {
    Join(Fields(t, amountText, dateText), ',')
  }

  /** One line per record, in record order. */
  function Lines(ts: seq<Transaction>, amountText: int -> string, dateText: Date -> string): (ls: seq<string>)
    ensures |ls| == |ts|
    ensures forall i :: 0 <= i < |ts| ==> ls[i] == Line(ts[i], amountText, dateText)
  {
    seq(|ts|, i requires 0 <= i < |ts| => Line(ts[i], amountText, dateText))
  }

  /** The exported text: mark, separator line, header line and record lines, joined by newlines with none at the end. */
  function Export(ts: seq<Transaction>, amountText: int -> string, dateText: Date -> string): (out: string)
    ensures |out| >= 1 && out[0] == Bom
  {
    [Bom] + SepLine + "\n" + Join([HeaderLine] + Lines(ts, amountText, dateText), '\n')
  }

  // ---------------------------------------------------------------------------
  // Reading the text back

  /** A join contains a character other than the separator only if some part does. */
  lemma {:induction false} JoinAvoids(parts: seq<string>, sep: char, c: char)
    requires c != sep
    requires forall i :: 0 <= i < |parts| ==> c !in parts[i]
    ensures c !in Join(parts, sep)
    decreases |parts|
  {
    if |parts| > 1 {
      JoinAvoids(parts[1..], sep, c);
    }
  }

  /** None of a record's rendered fields holds `c`. */
  ghost predicate FieldsAvoid(t: Transaction, amountText: int -> string, dateText: Date -> string, c: char) {
    c != '"' && c !in t.title && c !in t.category && c !in t.txType
    && c !in amountText(t.amount) && c !in dateText(t.date)
  }

  lemma FieldsFree(t: Transaction, amountText: int -> string, dateText: Date -> string, c: char)
    requires FieldsAvoid(t, amountText, dateText, c)
    ensures forall i :: 0 <= i < |Fields(t, amountText, dateText)| ==> c !in Fields(t, amountText, dateText)[i]
  {
    var fs := Fields(t, amountText, dateText);
    assert fs[0] == "\"" + t.title + "\"";
    assert fs[3] == "\"" + t.category + "\"";
  }

  /**
   * When no rendered field holds a newline, the text after the mark splits
   * into exactly the separator line, the header and one line per record in
   * order: n + 2 lines.
   */
  lemma ExportLines(ts: seq<Transaction>, amountText: int -> string, dateText: Date -> string)
    requires forall i :: 0 <= i < |ts| ==> FieldsAvoid(ts[i], amountText, dateText, '\n')
    ensures Split(Export(ts, amountText, dateText)[1..], '\n') == [SepLine, HeaderLine] + Lines(ts, amountText, dateText)
    ensures |Split(Export(ts, amountText, dateText)[1..], '\n')| == |ts| + 2
  {
    var parts := [SepLine, HeaderLine] + Lines(ts, amountText, dateText);
    ExportIsJoin(ts, amountText, dateText);
    LinesFree(ts, amountText, dateText);
    SplitJoin(parts, '\n');
  }

  /** The text after the mark is every line joined by newlines. */
  lemma ExportIsJoin(ts: seq<Transaction>, amountText: int -> string, dateText: Date -> string)
    ensures Export(ts, amountText, dateText)[1..] == Join([SepLine, HeaderLine] + Lines(ts, amountText, dateText), '\n')
  {
    var rest := [HeaderLine] + Lines(ts, amountText, dateText);
    assert [SepLine, HeaderLine] + Lines(ts, amountText, dateText) == [SepLine] + rest;
    JoinCons(SepLine, rest, '\n');
    AfterMark(Bom, SepLine, '\n', Join(rest, '\n'));
  }

  /** Dropping the first character of `[mark] + a + [sep] + b`. */
  lemma AfterMark(mark: char, a: string, sep: char, b: string)
    ensures ([mark] + a + [sep] + b)[1..] == a + [sep] + b
  {
  }

  lemma LinesFree(ts: seq<Transaction>, amountText: int -> string, dateText: Date -> string)
    requires forall i :: 0 <= i < |ts| ==> FieldsAvoid(ts[i], amountText, dateText, '\n')
    ensures SeparatorFree([SepLine, HeaderLine] + Lines(ts, amountText, dateText), '\n')
  {
    var lines := Lines(ts, amountText, dateText);
    forall i | 0 <= i < |lines| ensures '\n' !in lines[i] {
      LineFree(ts[i], amountText, dateText, '\n');
    }
    HeadLinesFree();
    PiecesFree(SepLine, HeaderLine, lines, '\n');
  }

  /** Neither the separator line nor the header line holds a newline. */
  lemma HeadLinesFree()
    ensures '\n' !in SepLine && '\n' !in HeaderLine
  {
    HeaderLineJoinsHeaders();
    JoinAvoids(Headers, ',', '\n');
  }

  /** A record's line holds a character other than the comma only if one of its rendered fields does. */
  lemma LineFree(t: Transaction, amountText: int -> string, dateText: Date -> string, c: char)
    requires c != ',' && FieldsAvoid(t, amountText, dateText, c)
    ensures c !in Line(t, amountText, dateText)
  {
    FieldsFree(t, amountText, dateText, c);
    JoinAvoids(Fields(t, amountText, dateText), ',', c);
  }

  /**
   * When no rendered field holds a comma, a record's line splits at commas
   * into its five fields: the title and category quoted, the rest bare.
   */
  lemma LineFields(t: Transaction, amountText: int -> string, dateText: Date -> string)
    requires FieldsAvoid(t, amountText, dateText, ',')
    ensures Split(Line(t, amountText, dateText), ',') ==
      [Quote(t.title), amountText(t.amount), t.txType, Quote(t.category), dateText(t.date)]
  {
    FieldsFree(t, amountText, dateText, ',');
    SplitJoin(Fields(t, amountText, dateText), ',');
  }

  /** Nothing is escaped: a comma in a title splits the title over two fields of the line. */
  lemma CommaInTitleSplits(t: Transaction, amountText: int -> string, dateText: Date -> string)
    requires t.title == "a,b"
    requires FieldsAvoid(t.(title := ""), amountText, dateText, ',')
    ensures Split(Line(t, amountText, dateText), ',') ==
      ["\"a", "b\"", amountText(t.amount), t.txType, Quote(t.category), dateText(t.date)]
  {
    assert "a" + [','] + "b" == t.title;
    assert "\"" + "a" == "\"a" && "b" + "\"" == "b\"";
    TitleCommaSplits(t, "a", "b", amountText, dateText);
  }

  /** A title `a,b` whose halves hold no comma reads back as the fields `"a` and `b"`. */
  lemma TitleCommaSplits(t: Transaction, a: string, b: string, amountText: int -> string, dateText: Date -> string)
    requires t.title == a + [','] + b && ',' !in a && ',' !in b
    requires FieldsAvoid(t.(title := ""), amountText, dateText, ',')
    ensures Split(Line(t, amountText, dateText), ',') ==
      ["\"" + a, b + "\"", amountText(t.amount), t.txType, Quote(t.category), dateText(t.date)]
  {
    var rest := [amountText(t.amount), t.txType, Quote(t.category), dateText(t.date)];
    assert Fields(t, amountText, dateText) == [Quote(t.title)] + rest;
    RestFree(t, amountText, dateText, rest);
    QuotedCommaSplits(a, b, rest);
  }

  /** Splitting a quoted `a,b` joined in front of comma-free fields gives `"a`, `b"` and those fields. */
  lemma QuotedCommaSplits(a: string, b: string, rest: seq<string>)
    requires ',' !in a && ',' !in b && |rest| >= 1
    requires forall i :: 0 <= i < |rest| ==> ',' !in rest[i]
    ensures Split(Join([Quote(a + [','] + b)] + rest, ','), ',') == ["\"" + a, b + "\""] + rest
  {
    var pieces := ["\"" + a, b + "\""] + rest;
    QuotedCommaJoin(a, b, rest);
    assert ',' !in "\"" + a && ',' !in b + "\"";
    PiecesFree("\"" + a, b + "\"", rest, ',');
    SplitJoin(pieces, ',');
  }

  /** Joining a quoted `a,b` in front of other fields reads as the two pieces `"a` and `b"` in front of them. */
  lemma QuotedCommaJoin(a: string, b: string, rest: seq<string>)
    requires |rest| >= 1
    ensures Join([Quote(a + [','] + b)] + rest, ',') == Join(["\"" + a, b + "\""] + rest, ',')
  {
    var q, first, second := Quote(a + [','] + b), "\"" + a, b + "\"";
    var tail := [second] + rest;
    JoinCons(q, rest, ',');
    JoinCons(second, rest, ',');
    assert [first, second] + rest == [first] + tail;
    JoinCons(first, tail, ',');
    QuoteSplits(a, b);
    ConcatSep(first, second, Join(rest, ','), ',');
  }

  /** Quoting `a,b` gives `"a`, a comma and `b"`. */
  lemma QuoteSplits(a: string, b: string)
    ensures Quote(a + [','] + b) == ("\"" + a) + [','] + (b + "\"")
  {
  }

  /** Regrouping `x,y,z`. */
  lemma ConcatSep(x: string, y: string, z: string, sep: char)
    ensures x + [sep] + y + [sep] + z == x + [sep] + (y + [sep] + z)
  {
  }

  /** Two pieces free of the separator in front of parts free of it give a list free of it. */
  lemma PiecesFree(first: string, second: string, rest: seq<string>, sep: char)
    requires sep !in first && sep !in second
    requires forall i :: 0 <= i < |rest| ==> sep !in rest[i]
    ensures SeparatorFree([first, second] + rest, sep)
  {
    var pieces := [first, second] + rest;
    forall i | 0 <= i < |pieces| ensures sep !in pieces[i] {
      if i >= 2 {
        assert pieces[i] == rest[i - 2];
      }
    }
  }

  /** The four fields after the title hold no comma when the record's other fields hold none. */
  lemma RestFree(t: Transaction, amountText: int -> string, dateText: Date -> string, rest: seq<string>)
    requires FieldsAvoid(t.(title := ""), amountText, dateText, ',')
    requires rest == [amountText(t.amount), t.txType, Quote(t.category), dateText(t.date)]
    ensures forall i :: 0 <= i < |rest| ==> ',' !in rest[i]
  {
    assert rest[2] == "\"" + t.category + "\"";
  }
}
