/** The rows a CSV exporter holds, and the file it reads them from and renders them to (exporters/csv_async.py). */
module CsvTable {

  type Id = string

  /** A row's cells; the first is the id of the record it came from. */
  type Row = seq<string>

  /** One record's rows, in the order of a dict: see `Put`. */
  datatype Group = Group(record: Id, rows: seq<Row>)

  /** A journal line: the rows a record was written with. */
  datatype Entry = Entry(record: Id, rows: seq<Row>)

  // ----- Cells

  const FORMULA_PREFIXES: set<char> := {'=', '+', '-', '@', '\t', '\r'}
  const ESCAPE: char := '\''

  function EscapeCell(value: string, plainNumber: string -> bool): string {
    if value != [] && value[0] == ESCAPE then [ESCAPE] + value
    else if value != [] && value[0] in FORMULA_PREFIXES && !plainNumber(value) then [ESCAPE] + value
    else value
  }

  function UnescapeCell(value: string): string {
    if value != [] && value[0] == ESCAPE then value[1..] else value
  }

  /** Every cell comes back as it was written, and one a spreadsheet would evaluate is not written as it is; any other is,
      but for an apostrophe before one that begins with an apostrophe. */
  lemma CellsComeBack(value: string, plainNumber: string -> bool)
    ensures UnescapeCell(EscapeCell(value, plainNumber)) == value
    ensures
      var written := EscapeCell(value, plainNumber);
      && (written != [] && written[0] in FORMULA_PREFIXES ==> plainNumber(written))
      && (written == value || written == "'" + value)
      && (written == value
          <==> value == [] || (value[0] != '\''
                               && (value[0] in {'=', '+', '-', '@', '\t', '\r'} ==> plainNumber(value))))
  {
  }

  /** How cells are written: escaped, or as they are. */
  datatype Style = Escaping(plainNumber: string -> bool) | Verbatim

  function Written(style: Style, row: Row): Row {
    if style.Verbatim? || row == [] then row
    else [EscapeCell(row[0], style.plainNumber)] + Written(style, row[1..])
  }

  function Read(style: Style, cells: Row): Row {
    if style.Verbatim? || cells == [] then cells else [UnescapeCell(cells[0])] + Read(style, cells[1..])
  }

  function AllWritten(style: Style, rows: seq<Row>): seq<Row> {
    if rows == [] then [] else [Written(style, rows[0])] + AllWritten(style, rows[1..])
  }

  function AllRead(style: Style, rows: seq<Row>): seq<Row> {
    if rows == [] then [] else [Read(style, rows[0])] + AllRead(style, rows[1..])
  }

  lemma {:induction false} RowComesBack(style: Style, row: Row)
    ensures Read(style, Written(style, row)) == row && |Written(style, row)| == |row|
  {
    if style.Escaping? && row != [] {
      CellsComeBack(row[0], style.plainNumber);
      RowComesBack(style, row[1..]);
    }
  }

  lemma {:induction false} RowsComeBack(style: Style, rows: seq<Row>)
    ensures AllRead(style, AllWritten(style, rows)) == rows
  {
    if rows != [] {
      RowComesBack(style, rows[0]);
      RowsComeBack(style, rows[1..]);
    }
  }

  // ----- The rows in memory

  /** Sets a record's rows, in its place if it has one and at the end otherwise. */
  function Put(groups: seq<Group>, record: Id, rows: seq<Row>): seq<Group> {
    if groups == [] then [Group(record, rows)]
    else if groups[0].record == record then [Group(record, rows)] + groups[1..]
    else [groups[0]] + Put(groups[1..], record, rows)
  }

  function Get(groups: seq<Group>, record: Id): seq<Row> {
    if groups == [] then [] else if groups[0].record == record then groups[0].rows else Get(groups[1..], record)
  }

  function AddRow(groups: seq<Group>, row: Row): seq<Group>
    requires row != []
  {
    Put(groups, row[0], Get(groups, row[0]) + [row])
  }

  predicate Tagged(rows: seq<Row>) {
    forall i :: 0 <= i < |rows| ==> rows[i] != []
  }

  /** The rows of a file, grouped by record. */
  function Grouped(rows: seq<Row>): seq<Group>
    requires Tagged(rows)
  {
    if rows == [] then [] else AddRow(Grouped(rows[..|rows| - 1]), rows[|rows| - 1])
  }

  function Replayed(groups: seq<Group>, entries: seq<Entry>): seq<Group> {
    if entries == [] then groups
    else
      var last := entries[|entries| - 1];
      Put(Replayed(groups, entries[..|entries| - 1]), last.record, last.rows)
  }

  function Rendered(groups: seq<Group>): seq<Row> {
    if groups == [] then [] else groups[0].rows + Rendered(groups[1..])
  }

  /** The rows of one record in a file. */
  function RowsOf(rows: seq<Row>, record: Id): seq<Row>
    requires Tagged(rows)
  {
    if rows == [] then []
    else RowsOf(rows[..|rows| - 1], record) + if rows[|rows| - 1][0] == record then [rows[|rows| - 1]] else []
  }

  // ----- Groups

  ghost predicate Owns(group: Group) {
    forall i :: 0 <= i < |group.rows| ==> group.rows[i] != [] && group.rows[i][0] == group.record
  }

  ghost predicate Proper(groups: seq<Group>) {
    && (forall i :: 0 <= i < |groups| ==> Owns(groups[i]))
    && (forall i, j :: 0 <= i < j < |groups| ==> groups[i].record != groups[j].record)
  }

  function Records(groups: seq<Group>): seq<Id> {
    if groups == [] then [] else [groups[0].record] + Records(groups[1..])
  }

  lemma {:induction false} RecordsAre(groups: seq<Group>)
    ensures |Records(groups)| == |groups| && forall i :: 0 <= i < |groups| ==> Records(groups)[i] == groups[i].record
  {
    if groups != [] {
      RecordsAre(groups[1..]);
    }
  }

  lemma {:induction false} PutPlaces(groups: seq<Group>, record: Id, rows: seq<Row>)
    ensures Records(Put(groups, record, rows))
            == if record in Records(groups) then Records(groups) else Records(groups) + [record]
  {
    if groups != [] && groups[0].record != record {
      PutPlaces(groups[1..], record, rows);
    }
  }

  lemma {:induction false} PutGets(groups: seq<Group>, record: Id, rows: seq<Row>, other: Id)
    ensures Get(Put(groups, record, rows), other) == if other == record then rows else Get(groups, other)
  {
    if groups != [] && groups[0].record != record {
      PutGets(groups[1..], record, rows, other);
    }
  }

  lemma {:induction false} PutIsProper(groups: seq<Group>, record: Id, rows: seq<Row>)
    requires Proper(groups) && Owns(Group(record, rows))
    ensures Proper(Put(groups, record, rows))
    ensures forall g :: g in Put(groups, record, rows) ==> g.record == record || g.record in Records(groups)
  {
    RecordsAre(groups);
    if groups != [] && groups[0].record != record {
      assert Proper(groups[1..]);
      PutIsProper(groups[1..], record, rows);
      var rest := Put(groups[1..], record, rows);
      RecordsAre(groups[1..]);
      forall i | 0 <= i < |rest|
        ensures rest[i].record != groups[0].record
      {
        assert rest[i] in rest;
      }
    }
  }

  lemma {:induction false} AbsentHasNoRows(groups: seq<Group>, record: Id)
    requires record !in Records(groups)
    ensures Get(groups, record) == []
  {
    if groups != [] {
      AbsentHasNoRows(groups[1..], record);
    }
  }

  lemma {:induction false} GetOwns(groups: seq<Group>, record: Id)
    requires Proper(groups)
    ensures Owns(Group(record, Get(groups, record)))
  {
    if groups != [] {
      if groups[0].record == record {
        assert Owns(groups[0]);
      } else {
        assert Proper(groups[1..]);
        GetOwns(groups[1..], record);
      }
    }
  }

  // ----- Reading a file and rendering one

  lemma {:induction false} GroupedIsProper(rows: seq<Row>)
    requires Tagged(rows)
    ensures Proper(Grouped(rows))
  {
    if rows != [] {
      var (before, row) := (rows[..|rows| - 1], rows[|rows| - 1]);
      GroupedIsProper(before);
      GetOwns(Grouped(before), row[0]);
      PutIsProper(Grouped(before), row[0], Get(Grouped(before), row[0]) + [row]);
    }
  }

  lemma {:induction false} GroupedHasRowsOf(rows: seq<Row>, record: Id)
    requires Tagged(rows)
    ensures Get(Grouped(rows), record) == RowsOf(rows, record)
  {
    if rows != [] {
      var (before, row) := (rows[..|rows| - 1], rows[|rows| - 1]);
      GroupedHasRowsOf(before, record);
      GroupedHasRowsOf(before, row[0]);
      PutGets(Grouped(before), row[0], Get(Grouped(before), row[0]) + [row], record);
    }
  }

  lemma {:induction false} RowsOfConcat(a: seq<Row>, b: seq<Row>, record: Id)
    requires Tagged(a) && Tagged(b)
    ensures Tagged(a + b) && RowsOf(a + b, record) == RowsOf(a, record) + RowsOf(b, record)
  {
    if b == [] {
      assert a + b == a;
    } else {
      RowsOfConcat(a, b[..|b| - 1], record);
      assert (a + b)[..|a + b| - 1] == a + b[..|b| - 1];
    }
  }

  lemma {:induction false} OwnRowsAll(group: Group, rows: seq<Row>, record: Id)
    requires Owns(Group(group.record, rows))
    ensures Tagged(rows) && RowsOf(rows, record) == if record == group.record then rows else []
  {
    if rows != [] {
      OwnRowsAll(group, rows[..|rows| - 1], record);
      assert rows[|rows| - 1] != [] && rows[|rows| - 1][0] == group.record;
      assert rows == rows[..|rows| - 1] + [rows[|rows| - 1]];
    }
  }

  /** A rendered file holds each record's rows as they are in memory. */
  lemma {:induction false} RenderedHasGet(groups: seq<Group>, record: Id)
    requires Proper(groups)
    ensures Tagged(Rendered(groups)) && RowsOf(Rendered(groups), record) == Get(groups, record)
  {
    if groups != [] {
      assert Proper(groups[1..]) && Owns(groups[0]);
      RenderedHasGet(groups[1..], record);
      OwnRowsAll(groups[0], groups[0].rows, record);
      RowsOfConcat(groups[0].rows, Rendered(groups[1..]), record);
      if record == groups[0].record {
        RecordsAre(groups[1..]);
        AbsentHasNoRows(groups[1..], record);
      }
    }
  }

  // ----- Replaying

  /** The rows the last of the entries gives a record, if any is the record's. */
  datatype Last = NeverWritten | LastRows(rows: seq<Row>)

  function LastWrite(entries: seq<Entry>, record: Id): Last {
    if entries == [] then NeverWritten
    else if entries[|entries| - 1].record == record then LastRows(entries[|entries| - 1].rows)
    else LastWrite(entries[..|entries| - 1], record)
  }

  function Told(before: seq<Row>, entries: seq<Entry>, record: Id): seq<Row> {
    match LastWrite(entries, record)
    case NeverWritten => before
    case LastRows(rows) => rows
  }

  lemma {:induction false} ReplayedGets(groups: seq<Group>, entries: seq<Entry>, record: Id)
    ensures Get(Replayed(groups, entries), record) == Told(Get(groups, record), entries, record)
  {
    if entries != [] {
      var (before, last) := (entries[..|entries| - 1], entries[|entries| - 1]);
      ReplayedGets(groups, before, record);
      PutGets(Replayed(groups, before), last.record, last.rows, record);
    }
  }

  ghost predicate AllOwn(entries: seq<Entry>) {
    forall i :: 0 <= i < |entries| ==> Owns(Group(entries[i].record, entries[i].rows))
  }

  lemma {:induction false} ReplayedIsProper(groups: seq<Group>, entries: seq<Entry>)
    requires Proper(groups) && AllOwn(entries)
    ensures Proper(Replayed(groups, entries))
  {
    if entries != [] {
      var (before, last) := (entries[..|entries| - 1], entries[|entries| - 1]);
      ReplayedIsProper(groups, before);
      PutIsProper(Replayed(groups, before), last.record, last.rows);
    }
  }

  lemma {:induction false} LastWriteOfMore(a: seq<Entry>, b: seq<Entry>, record: Id)
    ensures LastWrite(a + b, record) == if LastWrite(b, record) == NeverWritten then LastWrite(a, record) else LastWrite(b, record)
  {
    if b == [] {
      assert a + b == a;
    } else {
      LastWriteOfMore(a, b[..|b| - 1], record);
      assert (a + b)[..|a + b| - 1] == a + b[..|b| - 1];
    }
  }

  /** What was told of a record, told on by more entries, is what all of the entries tell. */
  lemma ToldOn(before: seq<Row>, a: seq<Entry>, b: seq<Entry>, record: Id)
    ensures Told(Told(before, a, record), b, record) == Told(before, a + b, record)
  {
    LastWriteOfMore(a, b, record);
  }

  // ----- Replaying again changes nothing, not even the order

  function Collected(records: seq<Id>, groups: seq<Group>): seq<Row> {
    if records == [] then [] else Get(groups, records[0]) + Collected(records[1..], groups)
  }

  lemma {:induction false} CollectedAlike(records: seq<Id>, a: seq<Group>, b: seq<Group>)
    requires forall record :: record in records ==> Get(a, record) == Get(b, record)
    ensures Collected(records, a) == Collected(records, b)
  {
    if records != [] {
      CollectedAlike(records[1..], a, b);
    }
  }

  lemma {:induction false} RenderedIsCollected(groups: seq<Group>)
    requires Proper(groups)
    ensures Rendered(groups) == Collected(Records(groups), groups)
  {
    if groups != [] {
      assert Proper(groups[1..]);
      RenderedIsCollected(groups[1..]);
      RecordsAre(groups[1..]);
      forall record | record in Records(groups[1..])
        ensures Get(groups[1..], record) == Get(groups, record)
      {
      }
      CollectedAlike(Records(groups[1..]), groups[1..], groups);
    }
  }

  /** The records with rows. */
  function Shown(groups: seq<Group>): seq<Id> {
    if groups == [] then [] else (if groups[0].rows != [] then [groups[0].record] else []) + Shown(groups[1..])
  }

  lemma {:induction false} CollectedConcat(a: seq<Id>, b: seq<Id>, groups: seq<Group>)
    ensures Collected(a + b, groups) == Collected(a, groups) + Collected(b, groups)
  {
    if a == [] {
      assert a + b == b;
    } else {
      CollectedConcat(a[1..], b, groups);
      assert (a + b)[1..] == a[1..] + b;
    }
  }

  lemma {:induction false} CollectedEmpty(records: seq<Id>, groups: seq<Group>)
    requires forall record :: record in records ==> Get(groups, record) == []
    ensures Collected(records, groups) == []
  {
    if records != [] {
      CollectedEmpty(records[1..], groups);
    }
  }

  /** Replaying keeps the records in their places and puts new ones after them. */
  lemma {:induction false} ReplayedPlaces(groups: seq<Group>, entries: seq<Entry>) returns (added: seq<Id>)
    ensures Records(Replayed(groups, entries)) == Records(groups) + added
    ensures forall record :: record in added ==> record !in Records(groups)
  {
    if entries == [] {
      added := [];
      assert Records(groups) + added == Records(groups);
    } else {
      var (before, last) := (entries[..|entries| - 1], entries[|entries| - 1]);
      added := ReplayedPlaces(groups, before);
      PutPlaces(Replayed(groups, before), last.record, last.rows);
      if last.record !in Records(Replayed(groups, before)) {
        assert Records(groups) + added + [last.record] == Records(groups) + (added + [last.record]);
        added := added + [last.record];
      }
    }
  }

  lemma {:induction false} ShownIsRest(groups: seq<Group>, record: Id)
    requires Proper(groups)
    ensures record in Shown(groups) ==> record in Records(groups)
    ensures record !in Shown(groups) ==> Get(groups, record) == []
  {
    if groups != [] {
      assert Proper(groups[1..]);
      ShownIsRest(groups[1..], record);
      RecordsAre(groups[1..]);
      AbsentOrNot(groups, record);
    }
  }

  lemma AbsentOrNot(groups: seq<Group>, record: Id)
    requires Proper(groups) && groups != []
    ensures groups[0].record == record ==> Get(groups[1..], record) == []
  {
    RecordsAre(groups[1..]);
    if groups[0].record == record {
      AbsentHasNoRows(groups[1..], record);
    }
  }

  lemma {:induction false} RenderedIsShown(groups: seq<Group>)
    requires Proper(groups)
    ensures Rendered(groups) == Collected(Shown(groups), groups)
  {
    if groups != [] {
      assert Proper(groups[1..]);
      RenderedIsShown(groups[1..]);
      RecordsAre(groups[1..]);
      forall record | record in Shown(groups[1..])
        ensures Get(groups[1..], record) == Get(groups, record)
      {
        ShownIsRest(groups[1..], record);
      }
      CollectedAlike(Shown(groups[1..]), groups[1..], groups);
      if groups[0].rows == [] {
        assert Rendered(groups) == Rendered(groups[1..]);
        assert Shown(groups) == Shown(groups[1..]);
      } else {
        assert Shown(groups) == [groups[0].record] + Shown(groups[1..]);
        assert Shown(groups)[1..] == Shown(groups[1..]);
      }
    }
  }

  lemma {:induction false} GroupedOneMore(rows: seq<Row>, own: seq<Row>, record: Id)
    requires Tagged(rows) && Owns(Group(record, own)) && Tagged(rows + own)
    ensures
      Records(Grouped(rows + own))
      == if own == [] || record in Records(Grouped(rows)) then Records(Grouped(rows)) else Records(Grouped(rows)) + [record]
  {
    if own == [] {
      assert rows + own == rows;
    } else {
      var (before, last) := (own[..|own| - 1], own[|own| - 1]);
      assert Owns(Group(record, before));
      assert last[0] == record;
      assert (rows + own)[..|rows + own| - 1] == rows + before;
      GroupedOneMore(rows, before, record);
      PutPlaces(Grouped(rows + before), record, Get(Grouped(rows + before), record) + [last]);
    }
  }

  lemma {:induction false} GroupedOnto(rows: seq<Row>, groups: seq<Group>)
    requires Tagged(rows) && Proper(groups) && Tagged(rows + Rendered(groups))
    requires forall record :: record in Records(groups) ==> record !in Records(Grouped(rows))
    ensures Records(Grouped(rows + Rendered(groups))) == Records(Grouped(rows)) + Shown(groups)
    decreases |groups|
  {
    if groups == [] {
      assert rows + Rendered(groups) == rows;
    } else {
      var (own, record) := (groups[0].rows, groups[0].record);
      var (onto, rest) := (rows + own, groups[1..]);
      assert Proper(rest) && Owns(Group(record, own)) by {
        assert Owns(groups[0]);
      }
      assert rows + Rendered(groups) == onto + Rendered(rest);
      assert Tagged(onto) by {
        assert forall i :: 0 <= i < |onto| ==> onto[i] == (rows + Rendered(groups))[i];
      }
      GroupedOneMore(rows, own, record);
      FirstIsAlone(groups);
      GroupedOnto(onto, rest);
      SplitShown(Records(Grouped(rows)), groups);
    }
  }

  lemma FirstIsAlone(groups: seq<Group>)
    requires Proper(groups) && groups != []
    ensures groups[0].record !in Records(groups[1..])
    ensures forall record :: record in Records(groups[1..]) ==> record in Records(groups)
  {
    RecordsAre(groups[1..]);
  }

  lemma SplitShown(before: seq<Id>, groups: seq<Group>)
    requires groups != []
    ensures
      (if groups[0].rows == [] then before else before + [groups[0].record]) + Shown(groups[1..]) == before + Shown(groups)
  {
  }

  /** A rendered file read back has the records with rows, in order, and the rows they had. */
  lemma ReadBack(groups: seq<Group>)
    requires Proper(groups)
    ensures Tagged(Rendered(groups))
    ensures Records(Grouped(Rendered(groups))) == Shown(groups)
    ensures forall record :: Get(Grouped(Rendered(groups)), record) == Get(groups, record)
  {
    RenderedHasGet(groups, "");
    assert [] + Rendered(groups) == Rendered(groups);
    GroupedOnto([], groups);
    assert [] + Shown(groups) == Shown(groups);
    forall record
      ensures Get(Grouped(Rendered(groups)), record) == Get(groups, record)
    {
      RenderedHasGet(groups, record);
      GroupedHasRowsOf(Rendered(groups), record);
    }
  }

  /** Reading a rendered file and rendering it gives the same file. */
  lemma RenderAgain(groups: seq<Group>)
    requires Proper(groups)
    ensures Tagged(Rendered(groups)) && Rendered(Grouped(Rendered(groups))) == Rendered(groups)
  {
    ReadBack(groups);
    var again := Grouped(Rendered(groups));
    GroupedIsProper(Rendered(groups));
    RenderedIsCollected(again);
    RenderedIsShown(groups);
    CollectedAlike(Shown(groups), again, groups);
  }

  /** Replaying entries into a table that already shows them gives the same file. */
  lemma ReplayAgain(groups: seq<Group>, entries: seq<Entry>)
    requires Proper(groups) && AllOwn(entries)
    ensures
      var once := Replayed(groups, entries);
      Tagged(Rendered(once)) && Rendered(Replayed(Grouped(Rendered(once)), entries)) == Rendered(once)
  {
    var once := Replayed(groups, entries);
    ReplayedIsProper(groups, entries);
    ReadBack(once);
    var back := Grouped(Rendered(once));
    GroupedIsProper(Rendered(once));
    var again := Replayed(back, entries);
    ReplayedIsProper(back, entries);
    var added := ReplayedPlaces(back, entries);
    forall record
      ensures Get(again, record) == Get(once, record)
    {
      ReplayedGets(back, entries, record);
      ReplayedGets(groups, entries, record);
    }
    RenderedIsCollected(again);
    CollectedConcat(Shown(once), added, again);
    forall record | record in added
      ensures Get(again, record) == []
    {
      ShownIsRest(once, record);
    }
    CollectedEmpty(added, again);
    assert Collected(Shown(once), again) + [] == Collected(Shown(once), again);
    CollectedAlike(Shown(once), again, once);
    RenderedIsShown(once);
  }
}
