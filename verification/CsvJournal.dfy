/** The CSV exporter's journal, and what a crash at any step leaves of it (exporters/csv_async.py). */
module CsvJournal {
  import opened CsvTable

  datatype Setup = Setup(header: Row, style: Style)

  datatype Table = NoTable | Table(header: Row, rows: seq<Row>)

  /** What follows the last whole line of a journal: nothing, or the start of a line, which decodes as UTF-8 or not. */
  datatype Tail = Whole | Partial(decodes: bool)

  datatype Journal = NoJournal | Journal(entries: seq<Entry>, tail: Tail)

  datatype Disk = Disk(table: Table, journal: Journal)

  /** Nothing torn stands at the end, where the next append would join it. */
  predicate Clean(journal: Journal) {
    journal.NoJournal? || journal.tail == Whole
  }

  // ----- The line a record is journaled as

  function HexDigit(n: nat): char
    requires n < 16
  {
    "0123456789abcdef"[n]
  }

  /** JSON's escapes: quotes, backslashes and control characters; any other character stays as it is. */
  function EscapedChar(c: char): string {
    if c == '"' then "\\\"" else if c == '\\' then "\\\\"
    else if c == '\n' then "\\n" else if c == '\r' then "\\r" else if c == '\t' then "\\t"
    else if c as int == 8 then "\\b" else if c as int == 12 then "\\f"
    else if c as int < 0x20 then "\\u00" + [HexDigit(c as int / 16), HexDigit(c as int % 16)]
    else [c]
  }

  function Escaped(text: string): string {
    if text == [] then [] else EscapedChar(text[0]) + Escaped(text[1..])
  }

  function JsonString(text: string): string {
    "\"" + Escaped(text) + "\""
  }

  function JsonItems(items: seq<string>): string {
    if items == [] then [] else items[0] + (if |items| == 1 then [] else ", " + JsonItems(items[1..]))
  }

  function JsonRow(row: Row): string {
    "[" + JsonItems(seq(|row|, i requires 0 <= i < |row| => JsonString(row[i]))) + "]"
  }

  function JsonRows(rows: seq<Row>): string {
    "[" + JsonItems(seq(|rows|, i requires 0 <= i < |rows| => JsonRow(rows[i]))) + "]"
  }

  function Json(entry: Entry): string {
    "{\"record_id\": " + JsonString(entry.record) + (", \"rows\": " + JsonRows(entry.rows) + "}")
  }

  // ----- Bytes

  function Bytes(c: char): nat {
    if c as int < 0x80 then 1 else if c as int < 0x800 then 2 else if c as int < 0x1_0000 then 3 else 4
  }

  function Length(text: string): nat {
    if text == [] then 0 else Bytes(text[0]) + Length(text[1..])
  }

  /** Whether the first `k` bytes of the encoded text hold whole characters. */
  predicate OnBoundary(text: string, k: nat) {
    k == 0 || (text != [] && k >= Bytes(text[0]) && OnBoundary(text[1..], k - Bytes(text[0])))
  }

  function Line(entry: Entry): string {
    Json(entry) + "\n"
  }

  function LengthOf(entries: seq<Entry>): nat {
    if entries == [] then 0 else Length(Line(entries[0])) + LengthOf(entries[1..])
  }

  /** The number of entries whose lines are whole in the first `k` bytes, and what follows them. */
  function Torn(entries: seq<Entry>, k: nat): (torn: (nat, Tail))
    ensures torn.0 <= |entries|
  {
    if entries == [] then (0, Whole)
    else
      var line := Line(entries[0]);
      if k >= Length(line) then
        var (n, tail) := Torn(entries[1..], k - Length(line));
        (n + 1, tail)
      else if k == 0 then (0, Whole)
      else (0, Partial(OnBoundary(line, k)))
  }

  function Payload(entries: seq<Entry>): string {
    if entries == [] then [] else Line(entries[0]) + Payload(entries[1..])
  }

  lemma {:induction false} BoundaryOfConcat(a: string, b: string, k: nat)
    ensures OnBoundary(a + b, k) == if k >= Length(a) then OnBoundary(b, k - Length(a)) else OnBoundary(a, k)
  {
    if a == [] {
      assert a + b == b;
    } else {
      assert (a + b)[1..] == a[1..] + b;
      if k >= Bytes(a[0]) {
        BoundaryOfConcat(a[1..], b, k - Bytes(a[0]));
      }
    }
  }

  /** The torn tail decodes exactly when the payload was cut between characters. */
  lemma {:induction false} TornDecodesOnBoundary(entries: seq<Entry>, k: nat)
    requires k <= LengthOf(entries)
    ensures Torn(entries, k).1 != Partial(false) <==> OnBoundary(Payload(entries), k)
  {
    if entries != [] {
      var line := Line(entries[0]);
      BoundaryOfConcat(line, Payload(entries[1..]), k);
      if k >= Length(line) {
        TornDecodesOnBoundary(entries[1..], k - Length(line));
      }
    }
  }

  lemma {:induction false} LengthOfConcat(a: string, b: string)
    ensures Length(a + b) == Length(a) + Length(b)
  {
    if a == [] {
      assert a + b == b;
    } else {
      assert (a + b)[1..] == a[1..] + b;
      LengthOfConcat(a[1..], b);
    }
  }

  lemma {:induction false} PayloadHasItsLength(entries: seq<Entry>)
    ensures Length(Payload(entries)) == LengthOf(entries)
  {
    if entries != [] {
      LengthOfConcat(Line(entries[0]), Payload(entries[1..]));
      PayloadHasItsLength(entries[1..]);
    }
  }

  predicate Ascii(text: string) {
    forall i :: 0 <= i < |text| ==> text[i] as int < 0x80
  }

  ghost predicate AllBoundaries(text: string) {
    forall k :: 0 <= k <= Length(text) ==> OnBoundary(text, k)
  }

  /** Every cut of a text falls between its characters exactly when they are all ASCII. */
  lemma {:induction false} AsciiIsAllBoundaries(text: string)
    ensures Ascii(text) <==> AllBoundaries(text)
  {
    if text != [] {
      var (c, rest) := (text[0], text[1..]);
      AsciiIsAllBoundaries(rest);
      AsciiOfConcat([c], rest);
      assert text == [c] + rest && [c][0] == c;
      if c as int >= 0x80 {
        assert !OnBoundary(text, 1);
      } else if Ascii(rest) {
        forall k | 0 <= k <= Length(text)
          ensures OnBoundary(text, k)
        {
          assert k > 0 ==> OnBoundary(rest, k - 1);
        }
      } else {
        var k :| 0 <= k <= Length(rest) && !OnBoundary(rest, k);
        assert !OnBoundary(text, k + 1);
      }
    }
  }

  lemma AsciiOfConcat(a: string, b: string)
    ensures Ascii(a + b) <==> Ascii(a) && Ascii(b)
  {
    assert forall i :: 0 <= i < |a| ==> (a + b)[i] == a[i];
    assert forall i :: 0 <= i < |b| ==> (a + b)[|a| + i] == b[i];
  }

  lemma EscapedCharIsAscii(c: char)
    ensures Ascii(EscapedChar(c)) <==> c as int < 0x80
  {
    assert EscapedChar(c) == [c] ==> EscapedChar(c)[0] == c;
  }

  lemma {:induction false} EscapedIsAscii(text: string)
    ensures Ascii(Escaped(text)) <==> Ascii(text)
  {
    if text != [] {
      EscapedIsAscii(text[1..]);
      EscapedCharIsAscii(text[0]);
      AsciiOfConcat(EscapedChar(text[0]), Escaped(text[1..]));
      AsciiOfConcat([text[0]], text[1..]);
      assert text == [text[0]] + text[1..];
    }
  }

  lemma StringIsAscii(text: string)
    ensures Ascii(JsonString(text)) <==> Ascii(text)
  {
    EscapedIsAscii(text);
    AsciiOfConcat("\"", Escaped(text));
    AsciiOfConcat("\"" + Escaped(text), "\"");
  }

  lemma {:induction false} ItemsAreAscii(items: seq<string>)
    ensures Ascii(JsonItems(items)) <==> forall i :: 0 <= i < |items| ==> Ascii(items[i])
  {
    if |items| > 1 {
      ItemsAreAscii(items[1..]);
      AsciiOfConcat(", ", JsonItems(items[1..]));
      AsciiOfConcat(items[0], ", " + JsonItems(items[1..]));
      assert forall i :: 0 < i < |items| ==> items[i] == items[1..][i - 1];
    } else if |items| == 1 {
      assert items[0] + [] == items[0];
    }
  }

  ghost predicate AsciiRow(row: Row) {
    forall j :: 0 <= j < |row| ==> Ascii(row[j])
  }

  /** The record's id and every cell of its rows are ASCII. */
  ghost predicate AsciiEntry(entry: Entry) {
    Ascii(entry.record) && forall i :: 0 <= i < |entry.rows| ==> AsciiRow(entry.rows[i])
  }

  lemma RowIsAscii(row: Row)
    ensures Ascii(JsonRow(row)) <==> AsciiRow(row)
  {
    var items := seq(|row|, i requires 0 <= i < |row| => JsonString(row[i]));
    forall i | 0 <= i < |row|
      ensures Ascii(items[i]) <==> Ascii(row[i])
    {
      StringIsAscii(row[i]);
    }
    ItemsAreAscii(items);
    AsciiOfConcat("[", JsonItems(items));
    AsciiOfConcat("[" + JsonItems(items), "]");
  }

  lemma RowsAreAscii(rows: seq<Row>)
    ensures Ascii(JsonRows(rows)) <==> forall i :: 0 <= i < |rows| ==> AsciiRow(rows[i])
  {
    var items := seq(|rows|, i requires 0 <= i < |rows| => JsonRow(rows[i]));
    forall i | 0 <= i < |rows|
      ensures Ascii(items[i]) <==> AsciiRow(rows[i])
    {
      RowIsAscii(rows[i]);
    }
    ItemsAreAscii(items);
    AsciiOfConcat("[", JsonItems(items));
    AsciiOfConcat("[" + JsonItems(items), "]");
  }

  lemma LineIsAscii(entry: Entry)
    ensures Ascii(Line(entry)) <==> AsciiEntry(entry)
  {
    var (id, rows) := (JsonString(entry.record), JsonRows(entry.rows));
    StringIsAscii(entry.record);
    RowsAreAscii(entry.rows);
    MarksAreAscii(id, rows);
    AsciiOfConcat(Json(entry), "\n");
  }

  lemma MarksAreAscii(id: string, rows: string)
    ensures Ascii("{\"record_id\": " + id + (", \"rows\": " + rows + "}")) <==> Ascii(id) && Ascii(rows)
  {
    var (head, middle) := ("{\"record_id\": ", ", \"rows\": ");
    AsciiOfConcat(head, id);
    AsciiOfConcat(middle, rows);
    AsciiOfConcat(middle + rows, "}");
    AsciiOfConcat(head + id, middle + rows + "}");
  }

  /** What a flush appends is ASCII exactly when the ids and cells of its records are. */
  lemma {:induction false} PayloadIsAscii(entries: seq<Entry>)
    ensures Ascii(Payload(entries)) <==> forall i :: 0 <= i < |entries| ==> AsciiEntry(entries[i])
  {
    if entries != [] {
      LineIsAscii(entries[0]);
      PayloadIsAscii(entries[1..]);
      AsciiOfConcat(Line(entries[0]), Payload(entries[1..]));
      assert forall i :: 0 < i < |entries| ==> entries[i] == entries[1..][i - 1];
    }
  }

  // ----- Files

  predicate Readable(setup: Setup, table: Table) {
    table.NoTable?
    || (table.header == setup.header && forall i :: 0 <= i < |table.rows| ==> |table.rows[i]| == |setup.header|)
  }

  function RowsIn(setup: Setup, table: Table): seq<Row> {
    if table.NoTable? then [] else AllRead(setup.style, table.rows)
  }

  function EntriesIn(journal: Journal): seq<Entry> {
    if journal.NoJournal? then [] else journal.entries
  }

  function Published(setup: Setup, groups: seq<Group>): Table {
    Table(setup.header, AllWritten(setup.style, Rendered(groups)))
  }

  function Appended(journal: Journal, entries: seq<Entry>): Journal
    requires Clean(journal)
  {
    Journal(EntriesIn(journal) + entries, Whole)
  }

  datatype Opening = Failed | Opened(groups: seq<Group>, disk: Disk)

  ghost predicate Valid(setup: Setup) {
    setup.header != []
  }

  /** Reads the table, and replays and publishes a journal left behind. */
  function Open(setup: Setup, disk: Disk): Opening
    requires Valid(setup)
  {
    if !Readable(setup, disk.table) then Failed
    else
      ReadableIsTagged(setup, disk.table);
      var groups := Grouped(RowsIn(setup, disk.table));
      match disk.journal
      case NoJournal => Opened(groups, disk)
      case Journal(entries, tail) =>
        if tail == Partial(false) then Failed
        else
          var replayed := Replayed(groups, entries);
          Opened(replayed, Disk(Published(setup, replayed), NoJournal))
  }

  lemma {:induction false} ReadKeepsWidths(style: Style, rows: seq<Row>, width: nat)
    requires forall i :: 0 <= i < |rows| ==> |rows[i]| == width
    ensures |AllRead(style, rows)| == |rows| && forall i :: 0 <= i < |rows| ==> |AllRead(style, rows)[i]| == width
  {
    if rows != [] {
      ReadKeepsWidth(style, rows[0]);
      ReadKeepsWidths(style, rows[1..], width);
    }
  }

  lemma {:induction false} ReadKeepsWidth(style: Style, row: Row)
    ensures |Read(style, row)| == |row|
  {
    if style.Escaping? && row != [] {
      ReadKeepsWidth(style, row[1..]);
    }
  }

  lemma ReadableIsTagged(setup: Setup, table: Table)
    requires Valid(setup) && Readable(setup, table)
    ensures Tagged(RowsIn(setup, table))
  {
    if table.Table? {
      ReadKeepsWidths(setup.style, table.rows, |setup.header|);
    }
  }

  // ----- Rows of the right width

  ghost predicate Wide(setup: Setup, rows: seq<Row>) {
    forall i :: 0 <= i < |rows| ==> |rows[i]| == |setup.header|
  }

  ghost predicate AllWide(setup: Setup, groups: seq<Group>) {
    forall i :: 0 <= i < |groups| ==> Wide(setup, groups[i].rows)
  }

  lemma {:induction false} RenderedIsWide(setup: Setup, groups: seq<Group>)
    requires AllWide(setup, groups)
    ensures Wide(setup, Rendered(groups))
  {
    if groups != [] {
      assert Wide(setup, groups[0].rows);
      RenderedIsWide(setup, groups[1..]);
    }
  }

  lemma {:induction false} WrittenIsWide(style: Style, rows: seq<Row>, width: nat)
    requires forall i :: 0 <= i < |rows| ==> |rows[i]| == width
    ensures |AllWritten(style, rows)| == |rows| && forall i :: 0 <= i < |rows| ==> |AllWritten(style, rows)[i]| == width
  {
    if rows != [] {
      RowComesBack(style, rows[0]);
      WrittenIsWide(style, rows[1..], width);
    }
  }

  lemma {:induction false} PutIsWide(setup: Setup, groups: seq<Group>, record: Id, rows: seq<Row>)
    requires AllWide(setup, groups) && Wide(setup, rows)
    ensures AllWide(setup, Put(groups, record, rows))
  {
    if groups != [] && groups[0].record != record {
      PutIsWide(setup, groups[1..], record, rows);
    }
  }

  lemma {:induction false} GetIsWide(setup: Setup, groups: seq<Group>, record: Id)
    requires AllWide(setup, groups)
    ensures Wide(setup, Get(groups, record))
  {
    if groups != [] && groups[0].record != record {
      GetIsWide(setup, groups[1..], record);
    }
  }

  lemma {:induction false} GroupedIsWide(setup: Setup, rows: seq<Row>)
    requires Tagged(rows) && Wide(setup, rows)
    ensures AllWide(setup, Grouped(rows))
  {
    if rows != [] {
      var (before, row) := (rows[..|rows| - 1], rows[|rows| - 1]);
      GroupedIsWide(setup, before);
      GetIsWide(setup, Grouped(before), row[0]);
      PutIsWide(setup, Grouped(before), row[0], Get(Grouped(before), row[0]) + [row]);
    }
  }

  /** What an entry must be to be journaled: the record's own rows, of the table's width. */
  ghost predicate Fit(setup: Setup, entries: seq<Entry>) {
    AllOwn(entries) && forall i :: 0 <= i < |entries| ==> Wide(setup, entries[i].rows)
  }

  lemma {:induction false} ReplayedIsWide(setup: Setup, groups: seq<Group>, entries: seq<Entry>)
    requires AllWide(setup, groups) && Fit(setup, entries)
    ensures AllWide(setup, Replayed(groups, entries))
  {
    if entries != [] {
      var (before, last) := (entries[..|entries| - 1], entries[|entries| - 1]);
      ReplayedIsWide(setup, groups, before);
      PutIsWide(setup, Replayed(groups, before), last.record, last.rows);
    }
  }

  // ----- What a disk shows

  /** The rows of a record that opening the disk shows. */
  function Shows(setup: Setup, disk: Disk, record: Id): seq<Row>
    requires Tagged(RowsIn(setup, disk.table))
  {
    Told(RowsOf(RowsIn(setup, disk.table), record), EntriesIn(disk.journal), record)
  }

  /** A published table can be read, and holds each record's rows. */
  lemma PublishedReadsBack(setup: Setup, groups: seq<Group>)
    requires Valid(setup) && Proper(groups) && AllWide(setup, groups)
    ensures Readable(setup, Published(setup, groups))
    ensures RowsIn(setup, Published(setup, groups)) == Rendered(groups) && Tagged(Rendered(groups))
  {
    RenderedIsWide(setup, groups);
    WrittenIsWide(setup.style, Rendered(groups), |setup.header|);
    RowsComeBack(setup.style, Rendered(groups));
  }

  /** A disk that some run of the exporter may have left. */
  ghost predicate Sane(setup: Setup, disk: Disk) {
    Valid(setup) && Readable(setup, disk.table) && Tagged(RowsIn(setup, disk.table)) && Fit(setup, EntriesIn(disk.journal))
  }

  lemma OpenedGroups(setup: Setup, disk: Disk)
    requires Sane(setup, disk)
    ensures
      var groups := Replayed(Grouped(RowsIn(setup, disk.table)), EntriesIn(disk.journal));
      && Proper(groups) && AllWide(setup, groups)
      && forall record :: Get(groups, record) == Shows(setup, disk, record)
  {
    var rows := RowsIn(setup, disk.table);
    if disk.table.Table? {
      ReadKeepsWidths(setup.style, disk.table.rows, |setup.header|);
    }
    GroupedIsProper(rows);
    GroupedIsWide(setup, rows);
    ReplayedIsProper(Grouped(rows), EntriesIn(disk.journal));
    ReplayedIsWide(setup, Grouped(rows), EntriesIn(disk.journal));
    forall record
      ensures Get(Replayed(Grouped(rows), EntriesIn(disk.journal)), record) == Shows(setup, disk, record)
    {
      ReplayedGets(Grouped(rows), EntriesIn(disk.journal), record);
      GroupedHasRowsOf(rows, record);
    }
  }

  /** Opening fails on such a disk exactly when the journal breaks off inside a character. */
  lemma OpeningFailsInsideACharacter(setup: Setup, disk: Disk)
    requires Sane(setup, disk)
    ensures Open(setup, disk).Failed? <==> disk.journal.Journal? && disk.journal.tail == Partial(false)
  {
  }

  /** What opening gives shows what the disk showed, and opening it again gives it again, to the order of the rows. */
  lemma RecoveryIsIdempotent(setup: Setup, disk: Disk)
    requires Sane(setup, disk) && Open(setup, disk).Opened?
    ensures
      var now := Open(setup, disk);
      && Sane(setup, now.disk) && now.disk.journal.NoJournal?
      && (forall record :: Shows(setup, now.disk, record) == Shows(setup, disk, record) == Get(now.groups, record))
      && Open(setup, now.disk).Opened? && Open(setup, now.disk).disk == now.disk
      && Rendered(Open(setup, now.disk).groups) == Rendered(now.groups)
  {
    OpenedGroups(setup, disk);
    var now := Open(setup, disk);
    if disk.journal.Journal? {
      PublishedReadsBack(setup, now.groups);
      RenderAgain(now.groups);
      forall record
        ensures Shows(setup, now.disk, record) == Get(now.groups, record)
      {
        RenderedHasGet(now.groups, record);
      }
    }
  }

  /** A recovery that crashed after it replaced the table, before it deleted the journal, is finished by the next one. */
  lemma RecoveryCanBeCut(setup: Setup, disk: Disk)
    requires Sane(setup, disk) && Open(setup, disk).Opened? && disk.journal.Journal?
    ensures
      var now := Open(setup, disk);
      var cut := Disk(now.disk.table, disk.journal);
      Sane(setup, cut) && Open(setup, cut).Opened? && Open(setup, cut).disk == now.disk
  {
    OpenedGroups(setup, disk);
    var groups := Grouped(RowsIn(setup, disk.table));
    GroupedIsProper(RowsIn(setup, disk.table));
    PublishedReadsBack(setup, Open(setup, disk).groups);
    ReplayAgain(groups, disk.journal.entries);
  }
}
