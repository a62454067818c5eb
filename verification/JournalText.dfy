/** The characters of the CSV exporter's journal, and reading them back (exporters/csv_async.py). */
module JournalText {
  import opened CsvTable
  import opened CsvJournal

  // ----- Reading JSON, as far as journal lines need it

  datatype Option<T> = None | Some(value: T)

  /** What a text begins with, and what follows it. */
  datatype Reading<T> = Got(value: T, rest: string) | Malformed

  predicate Begins(text: string, c: char) {
    text != [] && text[0] == c
  }

  function SkipBlank(text: string): (r: string)
    ensures |r| <= |text|
  {
    if text != [] && text[0] in {' ', '\t', '\n', '\r'} then SkipBlank(text[1..]) else text
  }

  function HexValue(c: char): Option<nat> {
    if '0' <= c <= '9' then Some(c as int - '0' as int)
    else if 'a' <= c <= 'f' then Some(c as int - 'a' as int + 10)
    else if 'A' <= c <= 'F' then Some(c as int - 'A' as int + 10)
    else None
  }

  function HexNumber(digits: string): Option<nat> {
    if digits == [] then Some(0)
    else
      match (HexNumber(digits[..|digits| - 1]), HexValue(digits[|digits| - 1]))
      case (Some(n), Some(d)) => Some(16 * n + d)
      case _ => None
  }

  /** The character an escape of one letter stands for. */
  function Unescaped(c: char): Option<char> {
    match c
    case '"' => Some('"')
    case '\\' => Some('\\')
    case '/' => Some('/')
    case 'n' => Some('\n')
    case 'r' => Some('\r')
    case 't' => Some('\t')
    case 'b' => Some(8 as char)
    case 'f' => Some(12 as char)
    case _ => None
  }

  function Prepend<T>(value: T, more: Reading<seq<T>>): Reading<seq<T>> {
    if more.Malformed? then Malformed else Got([value] + more.value, more.rest)
  }

  /** The characters up to the closing quote; a control character must be escaped. */
  function ReadChars(text: string): (r: Reading<string>)
    ensures r.Got? ==> |r.rest| < |text|
    decreases |text|
  {
    if text == [] then Malformed
    else if text[0] == '"' then Got([], text[1..])
    else if text[0] == '\\' then ReadEscape(text)
    else if text[0] as int < 0x20 then Malformed
    else Prepend(text[0], ReadChars(text[1..]))
  }

  function ReadEscape(text: string): (r: Reading<string>)
    requires text != []
    ensures r.Got? ==> |r.rest| < |text|
    decreases |text|, 0
  {
    if |text| < 2 then Malformed
    else if Unescaped(text[1]).Some? then Prepend(Unescaped(text[1]).value, ReadChars(text[2..]))
    else if text[1] != 'u' || |text| < 6 then Malformed
    else
      match HexNumber(text[2..6])
      case Some(n) => if n < 0xd800 then Prepend(n as char, ReadChars(text[6..])) else Malformed
      case None => Malformed
  }

  function ReadString(text: string): (r: Reading<string>)
    ensures r.Got? ==> |r.rest| < |text|
  {
    if Begins(text, '"') then ReadChars(text[1..]) else Malformed
  }

  /** The cells up to the closing bracket. */
  function ReadCells(text: string): (r: Reading<Row>)
    ensures r.Got? ==> |r.rest| < |text|
    decreases |text|
  {
    match ReadString(text)
    case Malformed => Malformed
    case Got(cell, rest) =>
      var behind := SkipBlank(rest);
      if Begins(behind, ']') then Got([cell], behind[1..])
      else if Begins(behind, ',') then Prepend(cell, ReadCells(SkipBlank(behind[1..])))
      else Malformed
  }

  function ReadRow(text: string): (r: Reading<Row>)
    ensures r.Got? ==> |r.rest| < |text|
  {
    if !Begins(text, '[') then Malformed
    else
      var inner := SkipBlank(text[1..]);
      if Begins(inner, ']') then Got([], inner[1..]) else ReadCells(inner)
  }

  /** The rows up to the closing bracket. */
  function ReadMoreRows(text: string): (r: Reading<seq<Row>>)
    ensures r.Got? ==> |r.rest| < |text|
    decreases |text|
  {
    match ReadRow(text)
    case Malformed => Malformed
    case Got(row, rest) =>
      var behind := SkipBlank(rest);
      if Begins(behind, ']') then Got([row], behind[1..])
      else if Begins(behind, ',') then Prepend(row, ReadMoreRows(SkipBlank(behind[1..])))
      else Malformed
  }

  function ReadRows(text: string): (r: Reading<seq<Row>>)
    ensures r.Got? ==> |r.rest| < |text|
  {
    if !Begins(text, '[') then Malformed
    else
      var inner := SkipBlank(text[1..]);
      if Begins(inner, ']') then Got([], inner[1..]) else ReadMoreRows(inner)
  }

  /** The members up to the closing brace; of two with one name the last stands. */
  function ReadMembers(text: string, record: Option<Id>, rows: Option<seq<Row>>): Reading<Entry>
    decreases |text|
  {
    match ReadString(text)
    case Malformed => Malformed
    case Got(name, rest) =>
      var behind := SkipBlank(rest);
      if !Begins(behind, ':') then Malformed
      else
        var value := SkipBlank(behind[1..]);
        if name == "record_id" then
          match ReadString(value)
          case Malformed => Malformed
          case Got(id, rest) => Behind(|text|, SkipBlank(rest), Some(id), rows)
        else if name == "rows" then
          match ReadRows(value)
          case Malformed => Malformed
          case Got(read, rest) => Behind(|text|, SkipBlank(rest), record, Some(read))
        else Malformed
  }

  function Behind(limit: nat, text: string, record: Option<Id>, rows: Option<seq<Row>>): Reading<Entry>
    requires |text| < limit
    decreases limit, 0
  {
    if Begins(text, '}') then
      if record.Some? && rows.Some? then Got(Entry(record.value, rows.value), text[1..]) else Malformed
    else if Begins(text, ',') then ReadMembers(SkipBlank(text[1..]), record, rows)
    else Malformed
  }

  /** A line is an entry when it is one JSON object, with nothing but blanks behind it. */
  function ReadLine(line: string): Option<Entry> {
    if !Begins(line, '{') then None
    else
      match ReadMembers(SkipBlank(line[1..]), None, None)
      case Malformed => None
      case Got(entry, rest) => if SkipBlank(rest) == [] then Some(entry) else None
  }

  /** Where the first line ends, at any of the line breaks a text file is read with. */
  function LineEnd(text: string): (r: Option<nat>)
    ensures r.Some? ==> r.value < |text|
  {
    if text == [] then None
    else if text[0] in {'\n', '\r'} then Some(0)
    else match LineEnd(text[1..]) case None => None case Some(n) => Some(n + 1)
  }

  /** The entries on the whole lines of a journal; what follows the last line break is passed over. */
  function ReadJournal(text: string): Option<seq<Entry>>
    decreases |text|
  {
    match LineEnd(text)
    case None => Some([])
    case Some(end) =>
      var next := if text[end] == '\r' && end + 1 < |text| && text[end + 1] == '\n' then end + 2 else end + 1;
      match (ReadLine(text[..end]), ReadJournal(text[next..]))
      case (Some(entry), Some(more)) => Some([entry] + more)
      case _ => None
  }

  // ----- Strings read back

  lemma {:induction false} HexReadsBack(n: nat)
    requires n < 16
    ensures HexValue(HexDigit(n)) == Some(n)
  {
  }

  lemma {:induction false} TwoHexRead(n: nat, high: nat, low: nat)
    requires n < 0x20 && high == n / 16 && low == n % 16
    ensures HexNumber("00" + [HexDigit(high), HexDigit(low)]) == Some(n)
  {
    var digits := "00" + [HexDigit(high), HexDigit(low)];
    HexReadsBack(high);
    HexReadsBack(low);
    assert digits[..3] == "00" + [HexDigit(high)];
    assert digits[..3][..2] == "00" && "00"[..1] == "0" && "0"[..0] == "";
    assert HexNumber("0") == Some(0) && HexNumber("00") == Some(0);
    assert HexNumber(digits[..3]) == Some(high);
  }

  /** An escape of one letter, and what it stands for. */
  lemma {:induction false} LetterReads(letter: char, c: char, rest: string, text: string)
    requires Unescaped(letter) == Some(c) && text == ['\\', letter] + rest
    ensures ReadChars(text) == Prepend(c, ReadChars(rest))
  {
    assert text[2..] == rest;
  }

  lemma {:induction false} CodeReads(c: char, high: nat, low: nat, rest: string, text: string)
    requires c as int < 0x20 && high == c as int / 16 && low == c as int % 16
    requires text == "\\u00" + [HexDigit(high), HexDigit(low)] + rest
    ensures ReadChars(text) == Prepend(c, ReadChars(rest))
  {
    TwoHexRead(c as int, high, low);
    assert text[2..6] == "00" + [HexDigit(high), HexDigit(low)] && text[6..] == rest;
  }

  lemma {:induction false} PlainReads(c: char, rest: string, text: string)
    requires c as int >= 0x20 && c != '"' && c != '\\' && text == [c] + rest
    ensures ReadChars(text) == Prepend(c, ReadChars(rest))
  {
    assert text[1..] == rest;
  }

  lemma {:induction false} EscapeReads(c: char, rest: string)
    ensures ReadChars(EscapedChar(c) + rest) == Prepend(c, ReadChars(rest))
  {
    var text := EscapedChar(c) + rest;
    if c == '"' {
      LetterReads('"', c, rest, text);
    } else if c == '\\' {
      LetterReads('\\', c, rest, text);
    } else if c == '\n' {
      LetterReads('n', c, rest, text);
    } else if c == '\r' {
      LetterReads('r', c, rest, text);
    } else if c == '\t' {
      LetterReads('t', c, rest, text);
    } else if c as int == 8 {
      LetterReads('b', c, rest, text);
    } else if c as int == 12 {
      LetterReads('f', c, rest, text);
    } else if c as int < 0x20 {
      CodeReads(c, c as int / 16, c as int % 16, rest, text);
    } else {
      PlainReads(c, rest, text);
    }
  }

  lemma {:induction false} CharsReadBack(value: string, rest: string, text: string)
    requires text == Escaped(value) + ("\"" + rest)
    ensures ReadChars(text) == Got(value, rest)
  {
    if value == [] {
      assert text == "\"" + rest && text[1..] == rest;
    } else {
      var (c, more) := (value[0], Escaped(value[1..]) + ("\"" + rest));
      assert text == EscapedChar(c) + more;
      EscapeReads(c, more);
      CharsReadBack(value[1..], rest, more);
      assert value == [c] + value[1..];
    }
  }

  /** Whatever a string holds, JSON's form of it is read back, up to its closing quote. */
  lemma {:induction false} StringReadsBack(value: string, rest: string, text: string)
    requires text == JsonString(value) + rest
    ensures ReadString(text) == Got(value, rest) && Begins(text, '"')
  {
    assert text[1..] == Escaped(value) + ("\"" + rest);
    CharsReadBack(value, rest, text[1..]);
  }

  // ----- Rows read back

  function Cells(row: Row): seq<string> {
    seq(|row|, i requires 0 <= i < |row| => JsonString(row[i]))
  }

  lemma {:induction false} CellsGoOn(row: Row)
    requires row != []
    ensures Cells(row)[0] == JsonString(row[0]) && Cells(row)[1..] == Cells(row[1..]) && |Cells(row)| == |row|
  {
  }

  lemma {:induction false} ItemsGoOn(items: seq<string>, tail: string)
    requires items != []
    ensures |items| == 1 ==> JsonItems(items) + tail == items[0] + tail
    ensures |items| > 1 ==> JsonItems(items) + tail == items[0] + (", " + (JsonItems(items[1..]) + tail))
  {
    assert items[0] + [] == items[0];
  }

  lemma {:induction false} NotBlank(text: string, c: char)
    requires Begins(text, c) && c !in {' ', '\t', '\n', '\r'}
    ensures SkipBlank(text) == text && SkipBlank(" " + text) == text
  {
    assert (" " + text)[1..] == text;
  }

  lemma {:induction false} CommaThen(behind: string, more: string, c: char)
    requires behind == ", " + more && Begins(more, c) && c !in {' ', '\t', '\n', '\r'}
    ensures SkipBlank(behind) == behind && Begins(behind, ',') && SkipBlank(behind[1..]) == more
  {
    NotBlank(more, c);
    assert behind[1..] == " " + more;
  }

  lemma {:induction false} CellThenMore(text: string, cell: string, behind: string, more: string)
    requires ReadString(text) == Got(cell, behind)
    requires SkipBlank(behind) == behind && Begins(behind, ',') && SkipBlank(behind[1..]) == more
    ensures ReadCells(text) == Prepend(cell, ReadCells(more))
  {
  }

  lemma {:induction false} LastCell(text: string, cell: string, behind: string, rest: string)
    requires ReadString(text) == Got(cell, behind)
    requires SkipBlank(behind) == behind && Begins(behind, ']') && behind[1..] == rest
    ensures ReadCells(text) == Got([cell], rest)
  {
  }

  lemma {:induction false} CellsReadBack(row: Row, rest: string, text: string)
    requires row != [] && text == JsonItems(Cells(row)) + ("]" + rest)
    ensures ReadCells(text) == Got(row, rest) && Begins(text, '"')
  {
    var (first, tail, end) := (row[0], row[1..], "]" + rest);
    CellsGoOn(row);
    ItemsGoOn(Cells(row), end);
    if |row| == 1 {
      StringReadsBack(first, end, text);
      NotBlank(end, ']');
      LastCell(text, first, end, rest);
      assert row == [first];
    } else {
      var more := JsonItems(Cells(tail)) + end;
      StringReadsBack(first, ", " + more, text);
      CellsReadBack(tail, rest, more);
      CommaThen(", " + more, more, '"');
      CellThenMore(text, first, ", " + more, more);
      assert row == [first] + tail;
    }
  }

  lemma {:induction false} RowReadsBack(row: Row, rest: string, text: string)
    requires text == JsonRow(row) + rest
    ensures ReadRow(text) == Got(row, rest) && Begins(text, '[')
  {
    var inner := JsonItems(Cells(row)) + ("]" + rest);
    assert text[1..] == inner;
    if row == [] {
      assert Cells(row) == [];
      assert inner == "]" + rest && inner[1..] == rest;
      NotBlank(inner, ']');
    } else {
      CellsReadBack(row, rest, inner);
      NotBlank(inner, '"');
    }
  }

  function RowTexts(rows: seq<Row>): seq<string> {
    seq(|rows|, i requires 0 <= i < |rows| => JsonRow(rows[i]))
  }

  lemma {:induction false} RowTextsGoOn(rows: seq<Row>)
    requires rows != []
    ensures RowTexts(rows)[0] == JsonRow(rows[0]) && RowTexts(rows)[1..] == RowTexts(rows[1..]) && |RowTexts(rows)| == |rows|
  {
  }

  lemma {:induction false} RowThenMore(text: string, row: Row, behind: string, more: string)
    requires ReadRow(text) == Got(row, behind)
    requires SkipBlank(behind) == behind && Begins(behind, ',') && SkipBlank(behind[1..]) == more
    ensures ReadMoreRows(text) == Prepend(row, ReadMoreRows(more))
  {
  }

  lemma {:induction false} LastRow(text: string, row: Row, behind: string, rest: string)
    requires ReadRow(text) == Got(row, behind)
    requires SkipBlank(behind) == behind && Begins(behind, ']') && behind[1..] == rest
    ensures ReadMoreRows(text) == Got([row], rest)
  {
  }

  lemma {:induction false} MoreRowsReadBack(rows: seq<Row>, rest: string, text: string)
    requires rows != [] && text == JsonItems(RowTexts(rows)) + ("]" + rest)
    ensures ReadMoreRows(text) == Got(rows, rest) && Begins(text, '[')
  {
    var (first, tail, end) := (rows[0], rows[1..], "]" + rest);
    RowTextsGoOn(rows);
    ItemsGoOn(RowTexts(rows), end);
    if |rows| == 1 {
      RowReadsBack(first, end, text);
      NotBlank(end, ']');
      LastRow(text, first, end, rest);
      assert rows == [first];
    } else {
      var more := JsonItems(RowTexts(tail)) + end;
      RowReadsBack(first, ", " + more, text);
      MoreRowsReadBack(tail, rest, more);
      CommaThen(", " + more, more, '[');
      RowThenMore(text, first, ", " + more, more);
      assert rows == [first] + tail;
    }
  }

  lemma {:induction false} RowsReadBack(rows: seq<Row>, rest: string, text: string)
    requires text == JsonRows(rows) + rest
    ensures ReadRows(text) == Got(rows, rest) && Begins(text, '[')
  {
    var inner := JsonItems(RowTexts(rows)) + ("]" + rest);
    assert text[1..] == inner;
    if rows == [] {
      assert RowTexts(rows) == [];
      assert inner == "]" + rest && inner[1..] == rest;
      NotBlank(inner, ']');
    } else {
      MoreRowsReadBack(rows, rest, inner);
      NotBlank(inner, '[');
    }
  }

  // ----- Lines read back

  /** A member's name and the value behind it. */
  lemma {:induction false} MemberReads(name: string, value: string, c: char, text: string)
    requires text == "\"" + name + "\"" + (": " + value) && Escaped(name) == name
    requires Begins(value, c) && c !in {' ', '\t', '\n', '\r'}
    ensures ReadString(text) == Got(name, ": " + value) && SkipBlank(": " + value) == ": " + value
    ensures SkipBlank((": " + value)[1..]) == value
  {
    StringReadsBack(name, ": " + value, text);
    NotBlank(value, c);
    assert (": " + value)[1..] == " " + value;
  }

  lemma {:induction false} RecordIdIsPlain()
    ensures Escaped("record_id") == "record_id"
  {
    PlainStays("record_id");
  }

  lemma {:induction false} RowsIsPlain()
    ensures Escaped("rows") == "rows"
  {
    PlainStays("rows");
  }

  lemma {:induction false} PlainStays(text: string)
    requires forall i :: 0 <= i < |text| ==> text[i] as int >= 0x20 && text[i] != '"' && text[i] != '\\'
    ensures Escaped(text) == text
  {
    if text != [] {
      PlainStays(text[1..]);
      assert text == [text[0]] + text[1..];
    }
  }

  lemma {:induction false} RowsMember(text: string, colon: string, value: string, record: Option<Id>, rows: seq<Row>, end: string)
    requires ReadString(text) == Got("rows", colon) && SkipBlank(colon) == colon && Begins(colon, ':')
    requires SkipBlank(colon[1..]) == value && ReadRows(value) == Got(rows, end) && SkipBlank(end) == end
    requires |end| < |text|
    ensures ReadMembers(text, record, None) == Behind(|text|, end, record, Some(rows))
  {
  }

  lemma {:induction false} RecordMember(text: string, colon: string, value: string, record: Id, end: string)
    requires ReadString(text) == Got("record_id", colon) && SkipBlank(colon) == colon && Begins(colon, ':')
    requires SkipBlank(colon[1..]) == value && ReadString(value) == Got(record, end) && SkipBlank(end) == end
    requires |end| < |text|
    ensures ReadMembers(text, None, None) == Behind(|text|, end, Some(record), None)
  {
  }

  lemma {:induction false} RowsKeyIs(value: string)
    ensures "\"rows\": " + value == "\"" + "rows" + "\"" + (": " + value)
  {
    assert "\"" + "rows" + "\"" == "\"rows\"";
    assert "\"rows\": " == "\"rows\"" + ": ";
  }

  lemma {:induction false} SecondMemberReads(entry: Entry, text: string, value: string, end: string, rest: string)
    requires end == "}" + rest && value == JsonRows(entry.rows) + end && text == "\"rows\": " + value
    ensures ReadMembers(text, Some(entry.record), None) == Got(entry, rest) && Begins(text, '"')
  {
    RowsIsPlain();
    RowsReadBack(entry.rows, end, value);
    RowsKeyIs(value);
    MemberReads("rows", value, '[', text);
    NotBlank(end, '}');
    RowsMember(text, ": " + value, value, Some(entry.record), entry.rows, end);
    assert end[1..] == rest;
  }

  lemma {:induction false} MemberThenMore(limit: nat, behind: string, record: Id, second: string)
    requires |behind| < limit && Begins(behind, ',') && SkipBlank(behind[1..]) == second
    ensures Behind(limit, behind, Some(record), None) == ReadMembers(second, Some(record), None)
  {
  }

  lemma {:induction false} KeyIs(value: string)
    ensures "\"record_id\": " + value == "\"" + "record_id" + "\"" + (": " + value)
  {
    assert "\"" + "record_id" + "\"" == "\"record_id\"";
    assert "\"record_id\": " == "\"record_id\"" + ": ";
  }

  lemma {:induction false} FirstMemberStands(id: string, text: string, value: string, behind: string)
    requires value == id + behind && Begins(id, '"') && text == "\"record_id\": " + value
    ensures ReadString(text) == Got("record_id", ": " + value) && SkipBlank(": " + value) == ": " + value
    ensures SkipBlank((": " + value)[1..]) == value && Begins(text, '"') && |behind| < |text|
  {
    RecordIdIsPlain();
    KeyIs(value);
    MemberReads("record_id", value, '"', text);
  }

  lemma {:induction false} FirstMemberReads(entry: Entry, text: string, value: string, behind: string, second: string)
    requires behind == ", " + second && value == JsonString(entry.record) + behind && text == "\"record_id\": " + value
    requires Begins(second, '"')
    ensures ReadMembers(text, None, None) == ReadMembers(second, Some(entry.record), None) && Begins(text, '"')
  {
    StringReadsBack(entry.record, behind, value);
    FirstMemberStands(JsonString(entry.record), text, value, behind);
    CommaThen(behind, second, '"');
    RecordMember(text, ": " + value, value, entry.record, behind);
    MemberThenMore(|text|, behind, entry.record, second);
  }

  lemma {:induction false} MembersReadBack(entry: Entry, text: string, second: string)
    requires second == "\"rows\": " + (JsonRows(entry.rows) + "}")
    requires text == "\"record_id\": " + (JsonString(entry.record) + (", " + second))
    ensures ReadMembers(text, None, None) == Got(entry, "") && Begins(text, '"')
  {
    assert "}" + "" == "}";
    SecondMemberReads(entry, second, JsonRows(entry.rows) + "}", "}", "");
    FirstMemberReads(entry, text, JsonString(entry.record) + (", " + second), ", " + second, second);
  }

  /** A journal line is read back as the entry it was written from. */
  lemma {:induction false} LineReadsBack(entry: Entry)
    ensures ReadLine(Json(entry)) == Some(entry)
  {
    var second := "\"rows\": " + (JsonRows(entry.rows) + "}");
    var members := "\"record_id\": " + (JsonString(entry.record) + (", " + second));
    MembersReadBack(entry, members, second);
    NotBlank(members, '"');
    JsonIs(JsonString(entry.record), JsonRows(entry.rows), Json(entry), members, second);
  }

  lemma {:induction false} JsonIs(id: string, rows: string, json: string, members: string, second: string)
    requires json == "{\"record_id\": " + id + (", \"rows\": " + rows + "}")
    requires second == "\"rows\": " + (rows + "}") && members == "\"record_id\": " + (id + (", " + second))
    ensures Begins(json, '{') && json[1..] == members
  {
    assert ", \"rows\": " + rows + "}" == ", " + second;
    assert json == "{" + members;
  }

  // ----- Whole journals read back

  predicate NoBreak(text: string) {
    forall i :: 0 <= i < |text| ==> text[i] !in {'\n', '\r'}
  }

  lemma {:induction false} NoBreakOfConcat(a: string, b: string)
    requires NoBreak(a) && NoBreak(b)
    ensures NoBreak(a + b)
  {
  }

  lemma {:induction false} EscapedHasNoBreak(text: string)
    ensures NoBreak(Escaped(text))
  {
    if text != [] {
      EscapedHasNoBreak(text[1..]);
      CharHasNoBreak(text[0]);
      NoBreakOfConcat(EscapedChar(text[0]), Escaped(text[1..]));
    }
  }

  lemma {:induction false} CharHasNoBreak(c: char)
    ensures NoBreak(EscapedChar(c))
  {
    if c as int < 0x20 {
      assert HexDigit(c as int / 16) !in {'\n', '\r'} && HexDigit(c as int % 16) !in {'\n', '\r'};
    }
  }

  lemma {:induction false} StringHasNoBreak(text: string)
    ensures NoBreak(JsonString(text))
  {
    EscapedHasNoBreak(text);
    NoBreakOfConcat("\"", Escaped(text));
    NoBreakOfConcat("\"" + Escaped(text), "\"");
  }

  lemma {:induction false} ItemsHaveNoBreak(items: seq<string>)
    requires forall i :: 0 <= i < |items| ==> NoBreak(items[i])
    ensures NoBreak(JsonItems(items))
  {
    if |items| == 1 {
      assert items[0] + [] == items[0];
    } else if items != [] {
      ItemsHaveNoBreak(items[1..]);
      NoBreakOfConcat(", ", JsonItems(items[1..]));
      NoBreakOfConcat(items[0], ", " + JsonItems(items[1..]));
    }
  }

  lemma {:induction false} InBracketsHaveNoBreak(items: seq<string>)
    requires forall i :: 0 <= i < |items| ==> NoBreak(items[i])
    ensures NoBreak("[" + JsonItems(items) + "]")
  {
    ItemsHaveNoBreak(items);
    NoBreakOfConcat("[", JsonItems(items));
    NoBreakOfConcat("[" + JsonItems(items), "]");
  }

  lemma {:induction false} RowHasNoBreak(row: Row)
    ensures NoBreak(JsonRow(row))
  {
    forall i | 0 <= i < |row|
      ensures NoBreak(Cells(row)[i])
    {
      StringHasNoBreak(row[i]);
    }
    InBracketsHaveNoBreak(Cells(row));
  }

  lemma {:induction false} RowsHaveNoBreak(rows: seq<Row>)
    ensures NoBreak(JsonRows(rows))
  {
    forall i | 0 <= i < |rows|
      ensures NoBreak(RowTexts(rows)[i])
    {
      RowHasNoBreak(rows[i]);
    }
    InBracketsHaveNoBreak(RowTexts(rows));
  }

  /** No id and no cell breaks a journal line. */
  lemma {:induction false} JsonHasNoBreak(entry: Entry)
    ensures NoBreak(Json(entry))
  {
    var (id, rows) := (JsonString(entry.record), JsonRows(entry.rows));
    StringHasNoBreak(entry.record);
    RowsHaveNoBreak(entry.rows);
    NoBreakOfConcat("{\"record_id\": ", id);
    NoBreakOfConcat(", \"rows\": ", rows);
    NoBreakOfConcat(", \"rows\": " + rows, "}");
    NoBreakOfConcat("{\"record_id\": " + id, ", \"rows\": " + rows + "}");
  }

  lemma {:induction false} LineEndIs(text: string, end: nat)
    requires end <= |text| && NoBreak(text[..end])
    ensures if end < |text| && text[end] in {'\n', '\r'} then LineEnd(text) == Some(end)
            else end == |text| ==> LineEnd(text) == None
  {
    if end > 0 {
      assert text[0] == text[..end][0] && text[1..][..end - 1] == text[..end][1..];
      LineEndIs(text[1..], end - 1);
    }
  }

  lemma {:induction false} FirstLineReads(entry: Entry, line: string, rest: string, text: string)
    requires line == Json(entry) + "\n" && text == line + rest && ReadJournal(rest).Some?
    ensures ReadJournal(text) == Some([entry] + ReadJournal(rest).value)
  {
    var end := |Json(entry)|;
    JsonHasNoBreak(entry);
    assert text[..end] == Json(entry) && text[end] == '\n' && text[end + 1..] == rest;
    LineEndIs(text, end);
    LineReadsBack(entry);
  }

  lemma {:induction false} PartialReads(text: string)
    requires NoBreak(text)
    ensures ReadJournal(text) == Some([])
  {
    assert text[..|text|] == text;
    LineEndIs(text, |text|);
  }

  lemma {:induction false} LengthGrows(text: string, cut: nat)
    requires cut <= |text|
    ensures Length(text[..cut]) <= Length(text) && (cut < |text| ==> Length(text[..cut]) < Length(text))
  {
    assert text == text[..cut] + text[cut..];
    LengthOfConcat(text[..cut], text[cut..]);
  }

  /**
   * A journal cut off anywhere between characters reads as the entries whose lines are whole, in order and unchanged, and
   * these are as many as the bytes left hold.
   */
  lemma {:induction false} JournalReadsBack(entries: seq<Entry>, cut: nat)
    requires cut <= |Payload(entries)|
    ensures
      var left := Payload(entries)[..cut];
      ReadJournal(left) == Some(entries[..Torn(entries, Length(left)).0])
  {
    if entries == [] {
      assert Payload(entries)[..cut] == [];
    } else {
      var (line, rest) := (Line(entries[0]), Payload(entries[1..]));
      if cut >= |line| {
        var more := cut - |line|;
        CutBehind(line, rest, Payload(entries), cut, more);
        JournalReadsBack(entries[1..], more);
        var left := rest[..more];
        WholeLineReads(entries, line, left, line + left, Torn(entries[1..], Length(left)).0, Torn(entries, Length(line + left)).0);
      } else {
        CutWithin(entries[0], line, rest, Payload(entries)[..cut], cut);
      }
    }
  }

  lemma {:induction false} CutBehind(line: string, rest: string, all: string, cut: nat, more: nat)
    requires all == line + rest && cut == |line| + more <= |all|
    ensures more <= |rest| && all[..cut] == line + rest[..more]
  {
  }

  lemma {:induction false} TornOneMore(entries: seq<Entry>, k: nat, all: nat)
    requires entries != [] && all == Length(Line(entries[0])) + k
    ensures Torn(entries, all).0 == Torn(entries[1..], k).0 + 1
  {
  }

  lemma {:induction false} WholeLineReads(entries: seq<Entry>, line: string, left: string, text: string, n: nat, m: nat)
    requires entries != [] && line == Line(entries[0]) && text == line + left
    requires n == Torn(entries[1..], Length(left)).0 && m == Torn(entries, Length(text)).0
    requires ReadJournal(left) == Some(entries[1..][..n])
    ensures ReadJournal(text) == Some(entries[..m])
  {
    LengthOfConcat(line, left);
    TornOneMore(entries, Length(left), Length(text));
    FirstLineReads(entries[0], line, left, text);
    FirstOfMore(entries, n, m);
  }

  lemma FirstOfMore(entries: seq<Entry>, n: nat, next: nat)
    requires entries != [] && next == n + 1 <= |entries|
    ensures [entries[0]] + entries[1..][..n] == entries[..next]
  {
  }

  lemma {:induction false} CutWithin(entry: Entry, line: string, rest: string, left: string, cut: nat)
    requires line == Line(entry) && cut < |line| && left == (line + rest)[..cut]
    ensures ReadJournal(left) == Some([]) && Length(left) < Length(line)
  {
    assert left == line[..cut] == Json(entry)[..cut];
    JsonHasNoBreak(entry);
    PartialReads(left);
    LengthGrows(line, cut);
  }

  /** So many entries fit into the bytes, and no more. */
  ghost predicate Fits(entries: seq<Entry>, k: nat, n: nat) {
    n <= |entries| && LengthOf(entries[..n]) <= k && (n < |entries| ==> k < LengthOf(entries[..n + 1]))
  }

  lemma {:induction false} LengthOneMore(entries: seq<Entry>, n: nat, next: nat, first: nat)
    requires n < |entries| && next == n + 1 && first == Length(Line(entries[0]))
    ensures LengthOf(entries[..next]) == first + LengthOf(entries[1..][..n])
  {
    assert entries[..next][1..] == entries[1..][..n];
  }

  lemma {:induction false} FitsOneMore(entries: seq<Entry>, rest: seq<Entry>, k: nat, left: nat, n: nat, next: nat, first: nat)
    requires entries != [] && rest == entries[1..] && first == Length(Line(entries[0])) && k == first + left && next == n + 1
    requires Fits(rest, left, n)
    ensures Fits(entries, k, next) && (left == LengthOf(rest[..n]) <==> k == LengthOf(entries[..next]))
  {
    LengthOneMore(entries, n, next, first);
    if n < |rest| {
      var more := next + 1;
      LengthOneMore(entries, next, more, first);
    }
  }

  lemma {:induction false} NothingFits(entries: seq<Entry>, k: nat)
    requires entries == [] || k < Length(Line(entries[0]))
    ensures entries == [] ==> LengthOf(entries[..0]) == 0
    ensures entries != [] ==> Fits(entries, k, 0) && LengthOf(entries[..0]) == 0
  {
    if entries != [] {
      LengthOneMore(entries, 0, 1, Length(Line(entries[0])));
    }
  }

  /** As many entries are whole as fit into the bytes left, and a tail is left exactly when bytes are left over. */
  lemma {:induction false} TornAreWhole(entries: seq<Entry>, k: nat)
    requires k <= LengthOf(entries)
    ensures Fits(entries, k, Torn(entries, k).0) && (Torn(entries, k).1 == Whole <==> k == LengthOf(entries[..Torn(entries, k).0]))
  {
    if entries == [] || k < Length(Line(entries[0])) {
      NothingFits(entries, k);
    } else {
      var (rest, first) := (entries[1..], Length(Line(entries[0])));
      var left := k - first;
      var n := Torn(rest, left).0;
      TornAreWhole(rest, left);
      FitsOneMore(entries, rest, k, left, n, n + 1, first);
    }
  }

  lemma {:induction false} BoundaryIsCut(text: string, k: nat) returns (cut: nat)
    requires OnBoundary(text, k)
    ensures cut <= |text| && Length(text[..cut]) == k
  {
    if k == 0 {
      cut := 0;
    } else {
      var less := k - Bytes(text[0]);
      var n := BoundaryIsCut(text[1..], less);
      cut := n + 1;
      assert text[..cut][1..] == text[1..][..n];
    }
  }

  /** Whatever is left of a flush and can be decoded reads as the entries that are whole in it. */
  lemma {:induction false} TornJournalReadsBack(entries: seq<Entry>, k: nat) returns (left: string)
    requires k <= LengthOf(entries) && Torn(entries, k).1 != Partial(false)
    ensures left <= Payload(entries) && Length(left) == k && ReadJournal(left) == Some(entries[..Torn(entries, k).0])
  {
    TornDecodesOnBoundary(entries, k);
    var cut := BoundaryIsCut(Payload(entries), k);
    left := Payload(entries)[..cut];
    JournalReadsBack(entries, cut);
  }
}
