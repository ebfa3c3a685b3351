/**
 The revenue export (csv-export.service.ts) and a reader for the format of section 2 of RFC 4180, with
 text data widened to every character but quote, comma, CR and LF.
 */
module CsvExport {
  import opened Wrappers
  import Text

  predicate Special(c: char)
  {
    c == '"' || c == ',' || c == '\r' || c == '\n'
  }

  /** A number as the runtime prints it: digits, sign, point or exponent, but nothing special. */
  type Numeral = s: string | forall i :: 0 <= i < |s| ==> !Special(s[i]) witness "0"

  datatype RevenueRow = RevenueRow(period: string, completedOrders: Numeral, soldQuantity: Numeral,
                                   merchandiseRevenue: Numeral, shippingRevenue: Numeral, totalRevenue: Numeral,
                                   averageOrderValue: Numeral)

  // ---- the writer

  predicate Formula(value: string)
  {
    |value| > 0 && value[0] in {'=', '+', '-', '@'}
  }

  function SanitizeText(value: string): string
  {
    if Formula(value) then "'" + value else value
  }

  function Doubled(text: string): string
  {
    if |text| == 0 then ""
    else (if text[0] == '"' then "\"\"" else [text[0]]) + Doubled(text[1..])
  }

  function Escape(text: string): string
  {
    if exists i :: 0 <= i < |text| && Special(text[i]) then "\"" + Doubled(text) + "\"" else text
  }

  function EscapeAll(texts: seq<string>): (escaped: seq<string>)
    ensures |escaped| == |texts| && forall i :: 0 <= i < |texts| ==> escaped[i] == Escape(texts[i])
  {
    seq(|texts|, i requires 0 <= i < |texts| => Escape(texts[i]))
  }

  function Line(texts: seq<string>): string
  {
    Text.Join(",", EscapeAll(texts))
  }

  function Lines(table: seq<seq<string>>): (lines: seq<string>)
    ensures |lines| == |table| && forall i :: 0 <= i < |table| ==> lines[i] == Line(table[i])
  {
    seq(|table|, i requires 0 <= i < |table| => Line(table[i]))
  }

  const CRLF: string := "\r\n"

  const BOM: char := '\U{FEFF}'

  function Written(table: seq<seq<string>>): string
  {
    Text.Join(CRLF, Lines(table)) + CRLF
  }

  const HEADERS: seq<string> := [
    "Kỳ", "Chi nhánh", "Phương thức thanh toán", "Đơn hoàn tất", "Sản phẩm bán", "Tiền hàng",
    "Phí vận chuyển", "Tổng doanh thu", "Giá trị đơn trung bình"]

  function RowTexts(row: RevenueRow, branchName: string, paymentMethod: string): (texts: seq<string>)
    ensures |texts| == |HEADERS|
  {
    [SanitizeText(row.period), SanitizeText(branchName), SanitizeText(paymentMethod),
     row.completedOrders, row.soldQuantity, row.merchandiseRevenue,
     row.shippingRevenue, row.totalRevenue, row.averageOrderValue]
  }

  function HeaderTexts(): (texts: seq<string>)
    ensures |texts| == |HEADERS|
  {
    seq(|HEADERS|, i requires 0 <= i < |HEADERS| => SanitizeText(HEADERS[i]))
  }

  function Table(rows: seq<RevenueRow>, branchName: string, paymentMethod: string): (table: seq<seq<string>>)
    ensures |table| == |rows| + 1 && table[0] == HeaderTexts()
    ensures forall i :: 0 <= i < |rows| ==> table[i + 1] == RowTexts(rows[i], branchName, paymentMethod)
  {
    [HeaderTexts()] + seq(|rows|, i requires 0 <= i < |rows| => RowTexts(rows[i], branchName, paymentMethod))
  }

  function Build(rows: seq<RevenueRow>, branchName: string, paymentMethod: string): string
  {
    [BOM] + Written(Table(rows, branchName, paymentMethod))
  }

  // ---- the reader

  datatype Read<T> = Read(value: T, rest: string) | Malformed

  /** The inside of a quoted field, up to and with its closing quote. */
  function ReadQuoted(s: string): (r: Read<string>)
    ensures r.Read? ==> |r.rest| < |s|
  {
    if |s| == 0 then Malformed
    else if s[0] != '"' then
      match ReadQuoted(s[1..])
      case Malformed => Malformed
      case Read(text, rest) => Read([s[0]] + text, rest)
    else if |s| > 1 && s[1] == '"' then
      match ReadQuoted(s[2..])
      case Malformed => Malformed
      case Read(text, rest) => Read("\"" + text, rest)
    else Read("", s[1..])
  }

  function ReadPlain(s: string): (r: Read<string>)
    ensures r.Read? && |r.rest| <= |s|
  {
    if |s| == 0 || Special(s[0]) then Read("", s)
    else
      var r := ReadPlain(s[1..]);
      Read([s[0]] + r.value, r.rest)
  }

  function ReadField(s: string): (r: Read<string>)
    ensures r.Read? ==> |r.rest| <= |s|
  {
    if |s| > 0 && s[0] == '"' then ReadQuoted(s[1..]) else ReadPlain(s)
  }

  /** Fields separated by commas. */
  function ReadRecord(s: string): (r: Read<seq<string>>)
    ensures r.Read? ==> |r.rest| <= |s|
    decreases |s|
  {
    match ReadField(s)
    case Malformed => Malformed
    case Read(field, rest) =>
      if |rest| > 0 && rest[0] == ',' then
        match ReadRecord(rest[1..])
        case Malformed => Malformed
        case Read(fields, after) => Read([field] + fields, after)
      else Read([field], rest)
  }

  predicate AtBreak(s: string)
  {
    |s| >= 2 && s[0] == '\r' && s[1] == '\n'
  }

  /** Records separated by line breaks; the last may have one too. */
  function ReadFile(s: string): Option<seq<seq<string>>>
    decreases |s|
  {
    match ReadRecord(s)
    case Malformed => None
    case Read(fields, rest) =>
      if rest == "" || rest == CRLF then Some([fields])
      else if !AtBreak(rest) then None
      else
        match ReadFile(rest[2..])
        case None => None
        case Some(others) => Some([fields] + others)
  }

  // ---- reading back what was written

  /** Nothing, a comma or a line break: where a field ends. */
  predicate FieldEnds(s: string)
  {
    s == "" || s[0] == ',' || s[0] == '\r'
  }

  lemma {:induction false} ReadDoubled(text: string, after: string)
    requires FieldEnds(after)
    ensures ReadQuoted(Doubled(text) + "\"" + after) == Read(text, after)
  {
    var s := Doubled(text) + "\"" + after;
    if |text| == 0 {
      assert s[1..] == after;
    } else {
      ReadDoubled(text[1..], after);
      var rest := Doubled(text[1..]) + "\"" + after;
      if text[0] == '"' {
        assert s[2..] == rest;
        assert s[0] == '"' && s[1] == '"';
      } else {
        assert s[1..] == rest;
        assert s[0] == text[0];
      }
      assert [text[0]] + text[1..] == text;
    }
  }

  lemma {:induction false} ReadUnquoted(text: string, after: string)
    requires FieldEnds(after) && forall i :: 0 <= i < |text| ==> !Special(text[i])
    ensures ReadPlain(text + after) == Read(text, after)
  {
    if |text| == 0 {
      assert text + after == after;
    } else {
      ReadUnquoted(text[1..], after);
      assert (text + after)[1..] == text[1..] + after;
      assert [text[0]] + text[1..] == text;
    }
  }

  lemma ReadQuotedField(text: string, after: string)
    requires FieldEnds(after)
    ensures ReadField("\"" + Doubled(text) + "\"" + after) == Read(text, after)
  {
    hide ReadQuoted, Doubled;
    var s := "\"" + Doubled(text) + "\"" + after;
    ReadDoubled(text, after);
    assert s[1..] == Doubled(text) + "\"" + after;
  }

  lemma ReadPlainField(text: string, after: string)
    requires FieldEnds(after) && forall i :: 0 <= i < |text| ==> !Special(text[i])
    ensures ReadField(text + after) == Read(text, after)
  {
    hide ReadPlain;
    ReadUnquoted(text, after);
    assert |text + after| > 0 ==> (text + after)[0] == if |text| > 0 then text[0] else after[0];
  }

  lemma ReadEscaped(text: string, after: string)
    requires FieldEnds(after)
    ensures ReadField(Escape(text) + after) == Read(text, after)
  {
    hide ReadField, Doubled;
    if exists i :: 0 <= i < |text| && Special(text[i]) {
      ReadQuotedField(text, after);
    } else {
      ReadPlainField(text, after);
    }
  }

  /** Nothing or a line break: where a record ends. */
  predicate RecordEnds(s: string)
  {
    s == "" || AtBreak(s)
  }

  lemma {:induction false} ReadLine(texts: seq<string>, after: string)
    requires |texts| > 0 && RecordEnds(after)
    ensures ReadRecord(Line(texts) + after) == Read(texts, after)
  {
    hide Escape, ReadField;
    var fields := EscapeAll(texts);
    if |texts| == 1 {
      ReadEscaped(texts[0], after);
      assert texts == [texts[0]];
    } else {
      var rest := "," + Line(texts[1..]) + after;
      Text.JoinFront(",", fields);
      assert fields[1..] == EscapeAll(texts[1..]);
      assert Line(texts) + after == Escape(texts[0]) + rest;
      ReadEscaped(texts[0], rest);
      assert rest[1..] == Line(texts[1..]) + after;
      ReadLine(texts[1..], after);
      assert [texts[0]] + texts[1..] == texts;
    }
  }

  /** Whatever is written is read back, field for field. */
  lemma {:induction false} ReadWritten(table: seq<seq<string>>)
    requires |table| > 0 && forall i :: 0 <= i < |table| ==> |table[i]| > 0
    ensures ReadFile(Written(table)) == Some(table)
  {
    hide Line, ReadRecord;
    var lines := Lines(table);
    if |table| == 1 {
      ReadLine(table[0], CRLF);
      assert table == [table[0]];
    } else {
      var rest := CRLF + Written(table[1..]);
      Text.JoinFront(CRLF, lines);
      assert lines[1..] == Lines(table[1..]);
      assert Written(table) == Line(table[0]) + rest;
      ReadLine(table[0], rest);
      assert rest[2..] == Written(table[1..]);
      WrittenIsLong(table[1..]);
      ReadWritten(table[1..]);
      assert [table[0]] + table[1..] == table;
    }
  }

  lemma WrittenIsLong(table: seq<seq<string>>)
    ensures |Written(table)| >= 2
  {
  }

  lemma HeadersAreHarmless()
    ensures HeaderTexts() == HEADERS
  {
  }

  /** The export, after its byte order mark, reads back as the header and the sanitised rows. */
  lemma BuildReadsBack(rows: seq<RevenueRow>, branchName: string, paymentMethod: string)
    ensures var text := Build(rows, branchName, paymentMethod);
            && text[0] == '\U{FEFF}'
            && ReadFile(text[1..]) == Some(Table(rows, branchName, paymentMethod))
            && Table(rows, branchName, paymentMethod)[0] == HEADERS
  {
    hide Written, ReadFile, RowTexts;
    var table := Table(rows, branchName, paymentMethod);
    forall i | 0 <= i < |table| ensures |table[i]| > 0 {
      if i > 0 {
        assert table[i] == RowTexts(rows[i - 1], branchName, paymentMethod);
      }
    }
    ReadWritten(table);
    HeadersAreHarmless();
    assert Build(rows, branchName, paymentMethod)[1..] == Written(table);
  }

  /** What a row shows under a heading: texts sanitised, numbers as they are. */
  function Named(row: RevenueRow, branchName: string, paymentMethod: string, heading: string): string
  {
    if heading == "Kỳ" then SanitizeText(row.period)
    else if heading == "Chi nhánh" then SanitizeText(branchName)
    else if heading == "Phương thức thanh toán" then SanitizeText(paymentMethod)
    else if heading == "Đơn hoàn tất" then row.completedOrders
    else if heading == "Sản phẩm bán" then row.soldQuantity
    else if heading == "Tiền hàng" then row.merchandiseRevenue
    else if heading == "Phí vận chuyển" then row.shippingRevenue
    else if heading == "Tổng doanh thu" then row.totalRevenue
    else if heading == "Giá trị đơn trung bình" then row.averageOrderValue
    else ""
  }

  lemma CellNamed(row: RevenueRow, branchName: string, paymentMethod: string, j: nat)
    requires j < |HEADERS|
    ensures RowTexts(row, branchName, paymentMethod)[j] == Named(row, branchName, paymentMethod, HEADERS[j])
  {
    hide SanitizeText;
    HeadingsDiffer();
  }

  /** Read back, every cell is what the heading of its column names. */
  lemma CellsUnderHeadings(rows: seq<RevenueRow>, branchName: string, paymentMethod: string, i: nat, j: nat)
    requires i < |rows| && j < |HEADERS|
    ensures var file := ReadFile(Build(rows, branchName, paymentMethod)[1..]);
            && file.Some? && |file.value| == |rows| + 1 && |file.value[0]| == |file.value[i + 1]| == |HEADERS|
            && file.value[i + 1][j] == Named(rows[i], branchName, paymentMethod, file.value[0][j])
  {
    hide ReadFile, Build, Named, RowTexts, HeaderTexts, HEADERS;
    BuildReadsBack(rows, branchName, paymentMethod);
    CellNamed(rows[i], branchName, paymentMethod, j);
  }

  lemma HeadingsDiffer()
    ensures forall i, j :: 0 <= i < j < |HEADERS| ==> HEADERS[i] != HEADERS[j]
    ensures forall i :: 0 <= i < |HEADERS| ==> HEADERS[i] in HEADERS
  {
    assert |HEADERS[0]| == 2 && |HEADERS[1]| == 9 && |HEADERS[2]| == 22 && |HEADERS[3]| == 12 && |HEADERS[4]| == 12;
    assert |HEADERS[5]| == 9 && |HEADERS[6]| == 14 && |HEADERS[7]| == 14 && |HEADERS[8]| == 22;
    assert HEADERS[1][0] == 'C' && HEADERS[5][0] == 'T';
    assert HEADERS[2][0] == 'P' && HEADERS[8][0] == 'G';
    assert HEADERS[3][0] == 'Đ' && HEADERS[4][0] == 'S';
    assert HEADERS[6][0] == 'P' && HEADERS[7][0] == 'T';
  }

  /** Only a field with a quote, a comma or a line break is quoted; every other stands as it is. */
  lemma QuotedExactly(text: string)
    ensures Escape(text) == text <==> '"' !in text && ',' !in text && '\r' !in text && '\n' !in text
    ensures Escape(text) != text ==>
              |Escape(text)| >= 2 && Escape(text)[0] == '"' && Escape(text)[|Escape(text)| - 1] == '"'
  {
    if exists i :: 0 <= i < |text| && Special(text[i]) {
      DoubledIsLonger(text);
    }
  }

  lemma {:induction false} DoubledIsLonger(text: string)
    ensures |Doubled(text)| >= |text|
  {
    if |text| > 0 {
      DoubledIsLonger(text[1..]);
    }
  }

  /** No text cell reads back as a formula; two texts share a cell only if they differ by the guard itself. */
  lemma SanitizedCells(a: string, b: string)
    ensures !Formula(SanitizeText(a))
    ensures SanitizeText(a) == if |a| > 0 && a[0] in ['=', '+', '-', '@'] then ['\''] + a else a
    ensures a != b ==> (SanitizeText(a) == SanitizeText(b) <==>
                         (Formula(a) && b == "'" + a) || (Formula(b) && a == "'" + b))
  {
    assert ("'" + a)[1..] == a && ("'" + b)[1..] == b;
  }
}
