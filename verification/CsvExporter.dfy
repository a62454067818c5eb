/** The CSV exporter as the source runs it (exporters/csv_async.py). */
module CsvExporter {
  import opened CsvTable
  import opened CsvJournal

  class Files {
    var table: Table
    var journal: Journal

    ghost function Value(): Disk
      reads this
    {
      Disk(table, journal)
    }

    constructor (disk: Disk)
      ensures Value() == disk
    {
      table, journal := disk.table, disk.journal;
    }
  }

  lemma {:induction false} AllReadOneMore(style: Style, rows: seq<Row>, i: nat)
    requires i < |rows|
    ensures AllRead(style, rows[..i + 1]) == AllRead(style, rows[..i]) + [Read(style, rows[i])]
  {
    if i > 0 {
      var rest := rows[1..];
      AllReadOneMore(style, rest, i - 1);
      assert rest[..i] == rows[..i + 1][1..];
      assert rest[..i - 1] == rows[..i][1..];
    }
  }

  lemma {:induction false} AllWrittenConcat(style: Style, a: seq<Row>, b: seq<Row>)
    ensures AllWritten(style, a + b) == AllWritten(style, a) + AllWritten(style, b)
  {
    if a == [] {
      assert a + b == b;
    } else {
      var rest := a[1..];
      AllWrittenConcat(style, rest, b);
      FirstGoesOn(a, b, rest);
      FirstGoesOn([Written(style, a[0])] + AllWritten(style, rest), AllWritten(style, b), AllWritten(style, rest));
    }
  }

  lemma FirstGoesOn(a: seq<Row>, b: seq<Row>, rest: seq<Row>)
    requires a != [] && rest == a[1..]
    ensures (a + b)[0] == a[0] && (a + b)[1..] == rest + b && a + b == [a[0]] + (rest + b)
  {
  }

  class AsyncCsvExporter {
    const setup: Setup
    const files: Files
    var groups: seq<Group>
    var pending: seq<Entry>
    var isOpen: bool

    constructor (settings: Setup, disk: Files)
      requires Valid(settings)
      ensures setup == settings && files == disk && groups == [] && pending == [] && !isOpen
    {
      setup, files := settings, disk;
      groups, pending, isOpen := [], [], false;
    }

    /** Loads the table and replays a journal left behind; false when either cannot be read. */
    method OpenFiles() returns (ok: bool)
      requires Valid(setup)
      modifies this, files
      ensures pending == old(pending) && isOpen == ok
      ensures old(isOpen) ==> ok && groups == old(groups) && files.Value() == old(files.Value())
      ensures
        !old(isOpen) ==>
          var opening := Open(setup, old(files.Value()));
          && ok == opening.Opened?
          && (ok ==> groups == opening.groups && files.Value() == opening.disk)
          && (!ok ==> files.Value() == old(files.Value()))
    {
      if isOpen {
        return true;
      }
      ok := ReadTable();
      if ok && files.journal.Journal? {
        ok := ReplayJournal();
        if ok {
          Publish();
        }
      }
      isOpen := ok;
    }

    method ReadTable() returns (ok: bool)
      requires Valid(setup)
      modifies this`groups
      ensures ok == Readable(setup, files.table)
      ensures ok ==> Tagged(RowsIn(setup, files.table)) && groups == Grouped(RowsIn(setup, files.table))
    {
      groups := [];
      if Readable(setup, files.table) {
        ReadableIsTagged(setup, files.table);
      }
      if files.table.NoTable? {
        return true;
      }
      if files.table.header != setup.header {
        return false;
      }
      var rows := files.table.rows;
      ghost var read: seq<Row> := [];
      for i := 0 to |rows|
        invariant forall j :: 0 <= j < i ==> |rows[j]| == |setup.header|
        invariant read == AllRead(setup.style, rows[..i]) && Tagged(read) && groups == Grouped(read)
      {
        if |rows[i]| != |setup.header| {
          return false;
        }
        var row := Read(setup.style, rows[i]);
        ReadKeepsWidth(setup.style, rows[i]);
        AllReadOneMore(setup.style, rows, i);
        assert (read + [row])[..|read|] == read;
        groups := AddRow(groups, row);
        read := read + [row];
      }
      assert rows[..|rows|] == rows;
      return true;
    }

    /** Replays the whole lines of the journal; false when it breaks off inside a character. */
    method ReplayJournal() returns (ok: bool)
      requires files.journal.Journal?
      modifies this`groups
      ensures ok == (files.journal.tail != Partial(false))
      ensures groups == Replayed(old(groups), files.journal.entries)
    {
      var entries := files.journal.entries;
      for i := 0 to |entries|
        invariant groups == Replayed(old(groups), entries[..i])
      {
        assert entries[..i + 1][..i] == entries[..i];
        groups := Put(groups, entries[i].record, entries[i].rows);
      }
      assert entries[..|entries|] == entries;
      return files.journal.tail != Partial(false);
    }

    /** Renders the table, replaces the file, and deletes the journal. */
    method Publish()
      modifies files
      ensures files.table == Published(setup, groups) && files.journal == NoJournal
    {
      var buffer: seq<Row> := [];
      ghost var whole := AllWritten(setup.style, Rendered(groups));
      for i := 0 to |groups|
        invariant buffer + AllWritten(setup.style, Rendered(groups[i..])) == whole
      {
        assert groups[i..][1..] == groups[i + 1..];
        AllWrittenConcat(setup.style, groups[i].rows, Rendered(groups[i + 1..]));
        var lines := WrittenRows(groups[i].rows);
        buffer := buffer + lines;
      }
      files.table := Table(setup.header, buffer);
      files.journal := NoJournal;
    }

    method WrittenRows(rows: seq<Row>) returns (lines: seq<Row>)
      ensures lines == AllWritten(setup.style, rows)
    {
      lines := [];
      for j := 0 to |rows|
        invariant lines + AllWritten(setup.style, rows[j..]) == AllWritten(setup.style, rows)
      {
        assert rows[j..][1..] == rows[j + 1..];
        lines := lines + [Written(setup.style, rows[j])];
      }
    }

    /** Replaces the record's rows and queues them for the next flush. */
    method Write(record: Id, rows: seq<Row>)
      modifies this
      ensures groups == Put(old(groups), record, rows) && isOpen == old(isOpen)
      ensures pending == old(pending) + [Entry(record, rows)]
    {
      groups := Put(groups, record, rows);
      pending := pending + [Entry(record, rows)];
    }

    /** Appends the queued records to the journal. */
    method Flush()
      requires pending != [] ==> Clean(files.journal)
      modifies this`pending, files
      ensures pending == []
      ensures
        files.Value()
        == if old(pending) == [] then old(files.Value())
           else old(files.Value()).(journal := Appended(old(files.journal), old(pending)))
    {
      if pending == [] {
        return;
      }
      files.journal := Appended(files.journal, pending);
      pending := [];
    }

    /** Flushes, publishes the table, and forgets the rows. */
    method Close()
      requires pending != [] ==> Clean(files.journal)
      modifies this, files
      ensures pending == [] && !isOpen
      ensures old(isOpen) ==> groups == [] && files.table == Published(setup, old(groups)) && files.journal == NoJournal
      ensures
        !old(isOpen) ==>
          && groups == old(groups)
          && files.Value()
             == if old(pending) == [] then old(files.Value())
                else old(files.Value()).(journal := Appended(old(files.journal), old(pending)))
    {
      Flush();
      if !isOpen {
        return;
      }
      Publish();
      isOpen := false;
      groups := [];
    }
  }
}
