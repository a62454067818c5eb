/** Runs of the CSV exporter, crashed at any step. */
module CsvRuns {
  import opened CsvTable
  import opened CsvJournal

  /** The process: not running, open with records queued, or publishing, before or after it replaced the table. */
  datatype Process =
    | Down
    | Up(groups: seq<Group>, pending: seq<Entry>)
    | Publishing(groups: seq<Group>, closing: bool, replaced: bool)

  /**
   * The disk and the process, with a history: the entries that lasted from earlier runs, the entries this run was
   * given, how many of them a flush that returned made durable, and how many are in the journal.
   */
  datatype World = World(disk: Disk, process: Process, earlier: seq<Entry>, run: seq<Entry>, flushed: nat, lasting: nat)

  datatype Action =
    | Load
    | Write(entry: Entry)
    | Flush
    | CrashInFlush(bytes: nat)
    | Close
    | Replace
    | Unlink
    | GiveUp
    | Crash

  function Loaded(setup: Setup, disk: Disk): Process
    requires Valid(setup) && Readable(setup, disk.table)
  {
    ReadableIsTagged(setup, disk.table);
    var groups := Replayed(Grouped(RowsIn(setup, disk.table)), EntriesIn(disk.journal));
    if disk.journal.NoJournal? then Up(groups, []) else Publishing(groups, false, false)
  }

  ghost predicate Can(setup: Setup, w: World, a: Action) {
    match a
    case Load => w.process.Down? && Sane(setup, w.disk) && !Open(setup, w.disk).Failed?
    case Write(entry) => w.process.Up? && Fit(setup, [entry])
    case Flush => w.process.Up?
    case CrashInFlush(bytes) => w.process.Up? && bytes <= LengthOf(w.process.pending)
    case Close => w.process.Up? && w.process.pending == []
    case Replace => w.process.Publishing? && !w.process.replaced
    case Unlink => w.process.Publishing? && w.process.replaced
    case GiveUp => w.process.Publishing?
    case Crash => true
  }

  function Do(setup: Setup, w: World, a: Action): World
    requires a.Load? ==> Valid(setup) && Readable(setup, w.disk.table)
    requires a.Flush? || a.CrashInFlush? ==> Clean(w.disk.journal)
    requires a.Write? || a.Flush? || a.CrashInFlush? || a.Close? ==> w.process.Up?
    requires a.Replace? || a.Unlink? || a.GiveUp? ==> w.process.Publishing?
    requires w.lasting <= |w.run|
  {
    match a
    case Load => World(w.disk, Loaded(setup, w.disk), w.earlier + w.run[..w.lasting], [], 0, 0)
    case Write(entry) =>
      w.(process := Up(Put(w.process.groups, entry.record, entry.rows), w.process.pending + [entry]),
         run := w.run + [entry])
    case Flush =>
      if w.process.pending == [] then w
      else
        w.(disk := w.disk.(journal := Appended(w.disk.journal, w.process.pending)), process := w.process.(pending := []),
           flushed := |w.run|, lasting := |w.run|)
    case CrashInFlush(bytes) =>
      var (whole, tail) := Torn(w.process.pending, bytes);
      w.(disk := w.disk.(journal := Journal(EntriesIn(w.disk.journal) + w.process.pending[..whole], tail)),
         process := Down, lasting := w.lasting + whole)
    case Close => w.(process := Publishing(w.process.groups, true, false))
    case Replace =>
      w.(disk := w.disk.(table := Published(setup, w.process.groups)), process := w.process.(replaced := true))
    case Unlink =>
      w.(disk := w.disk.(journal := NoJournal), process := if w.process.closing then Down else Up(w.process.groups, []))
    case GiveUp => w.(process := if w.process.closing then Up(w.process.groups, []) else Down)
    case Crash => w.(process := Down)
  }

  // ----- What every step keeps

  /** The disk shows, of every record, what the entries that lasted tell of the table there was at first. */
  ghost predicate ShowsWhatLasted(setup: Setup, w: World, base: seq<Row>)
    requires Tagged(base) && Tagged(RowsIn(setup, w.disk.table)) && w.lasting <= |w.run|
  {
    forall record ::
      Shows(setup, w.disk, record) == Told(RowsOf(base, record), w.earlier + w.run[..w.lasting], record)
  }

  /** The rows in memory are what the disk would show with the queued records. */
  ghost predicate Mirrors(setup: Setup, groups: seq<Group>, disk: Disk, queued: seq<Entry>)
    requires Tagged(RowsIn(setup, disk.table))
  {
    && Proper(groups) && AllWide(setup, groups)
    && forall record :: Get(groups, record) == Told(Shows(setup, disk, record), queued, record)
  }

  ghost predicate Reads(journal: Journal) {
    journal.NoJournal? || journal.tail != Partial(false)
  }

  ghost predicate InStep(setup: Setup, w: World)
    requires Tagged(RowsIn(setup, w.disk.table)) && w.lasting <= |w.run|
  {
    match w.process
    case Down => true
    case Up(groups, pending) =>
      && Clean(w.disk.journal) && Fit(setup, pending) && Mirrors(setup, groups, w.disk, pending)
      && w.flushed == w.lasting && w.run == w.run[..w.lasting] + pending
    case Publishing(groups, closing, replaced) =>
      && Reads(w.disk.journal) && (closing ==> Clean(w.disk.journal)) && Mirrors(setup, groups, w.disk, [])
      && w.flushed == w.lasting == |w.run|
      && (replaced ==> RowsIn(setup, w.disk.table) == Rendered(groups))
  }

  ghost predicate Sound(setup: Setup, w: World, base: seq<Row>) {
    && Tagged(base) && Sane(setup, w.disk) && w.flushed <= w.lasting <= |w.run|
    && ShowsWhatLasted(setup, w, base) && InStep(setup, w)
  }

  lemma LoadIsSound(setup: Setup, w: World, base: seq<Row>)
    requires Sound(setup, w, base) && Can(setup, w, Load)
    ensures Sound(setup, Do(setup, w, Load), base)
  {
    OpenedGroups(setup, w.disk);
    var after := Do(setup, w, Load);
    assert after.earlier + after.run[..0] == w.earlier + w.run[..w.lasting];
  }

  lemma PutMirrors(setup: Setup, groups: seq<Group>, disk: Disk, queued: seq<Entry>, entry: Entry)
    requires Tagged(RowsIn(setup, disk.table)) && Mirrors(setup, groups, disk, queued) && Fit(setup, [entry])
    ensures Mirrors(setup, Put(groups, entry.record, entry.rows), disk, queued + [entry])
  {
    assert [entry][0] == entry;
    PutIsProper(groups, entry.record, entry.rows);
    PutIsWide(setup, groups, entry.record, entry.rows);
    forall record
      ensures Get(Put(groups, entry.record, entry.rows), record) == Told(Shows(setup, disk, record), queued + [entry], record)
    {
      PutGets(groups, entry.record, entry.rows, record);
      assert (queued + [entry])[..|queued|] == queued;
    }
  }

  lemma WriteIsSound(setup: Setup, w: World, base: seq<Row>, entry: Entry)
    requires Sound(setup, w, base) && Can(setup, w, Write(entry))
    ensures Sound(setup, Do(setup, w, Write(entry)), base)
  {
    var after := Do(setup, w, Write(entry));
    PutMirrors(setup, w.process.groups, w.disk, w.process.pending, entry);
    assert [entry][0] == entry;
    assert after.run[..after.lasting] == w.run[..w.lasting];
  }

  /** Journaling the first of the queued entries tells them on. */
  lemma JournaledTells(setup: Setup, w: World, base: seq<Row>, more: seq<Entry>, tail: Tail, after: World)
    requires Sound(setup, w, base) && Fit(setup, more) && w.lasting + |more| <= |w.run|
    requires more == w.run[w.lasting..w.lasting + |more|]
    requires after.disk == w.disk.(journal := Journal(EntriesIn(w.disk.journal) + more, tail))
    requires after.earlier == w.earlier && after.run == w.run && after.lasting == w.lasting + |more|
    ensures Sane(setup, after.disk) && ShowsWhatLasted(setup, after, base)
    ensures forall record :: Shows(setup, after.disk, record) == Told(Shows(setup, w.disk, record), more, record)
  {
    var lasted := w.earlier + w.run[..w.lasting];
    assert w.earlier + w.run[..after.lasting] == lasted + more;
    forall record
      ensures Shows(setup, after.disk, record) == Told(Shows(setup, w.disk, record), more, record)
      ensures Shows(setup, after.disk, record) == Told(RowsOf(base, record), lasted + more, record)
    {
      ToldOn(RowsOf(RowsIn(setup, w.disk.table), record), EntriesIn(w.disk.journal), more, record);
      ToldOn(RowsOf(base, record), lasted, more, record);
    }
  }

  lemma FlushIsSound(setup: Setup, w: World, base: seq<Row>)
    requires Sound(setup, w, base) && Can(setup, w, Flush)
    ensures Sound(setup, Do(setup, w, Flush), base)
  {
    if w.process.pending != [] {
      JournaledTells(setup, w, base, w.process.pending, Whole, Do(setup, w, Flush));
    }
  }

  lemma CrashInFlushIsSound(setup: Setup, w: World, base: seq<Row>, bytes: nat)
    requires Sound(setup, w, base) && Can(setup, w, CrashInFlush(bytes))
    ensures Sound(setup, Do(setup, w, CrashInFlush(bytes)), base)
  {
    var (whole, tail) := Torn(w.process.pending, bytes);
    var queued := w.process.pending;
    assert w.run[w.lasting..w.lasting + whole] == queued[..whole];
    JournaledTells(setup, w, base, queued[..whole], tail, Do(setup, w, CrashInFlush(bytes)));
  }

  lemma ReplaceIsSound(setup: Setup, w: World, base: seq<Row>)
    requires Sound(setup, w, base) && Can(setup, w, Replace)
    ensures Sound(setup, Do(setup, w, Replace), base)
  {
    var groups := w.process.groups;
    var after := Do(setup, w, Replace);
    PublishedReadsBack(setup, groups);
    forall record
      ensures Shows(setup, after.disk, record) == Shows(setup, w.disk, record) == Get(groups, record)
    {
      RenderedHasGet(groups, record);
    }
  }

  lemma UnlinkIsSound(setup: Setup, w: World, base: seq<Row>)
    requires Sound(setup, w, base) && Can(setup, w, Unlink)
    ensures Sound(setup, Do(setup, w, Unlink), base)
  {
    var groups := w.process.groups;
    var after := Do(setup, w, Unlink);
    forall record
      ensures Shows(setup, after.disk, record) == Shows(setup, w.disk, record)
    {
      RenderedHasGet(groups, record);
    }
  }

  lemma ActionIsSound(setup: Setup, w: World, base: seq<Row>, a: Action)
    requires Sound(setup, w, base) && Can(setup, w, a)
    ensures Sound(setup, Do(setup, w, a), base)
  {
    match a
    case Load => LoadIsSound(setup, w, base);
    case Write(entry) => WriteIsSound(setup, w, base, entry);
    case Flush => FlushIsSound(setup, w, base);
    case CrashInFlush(bytes) => CrashInFlushIsSound(setup, w, base, bytes);
    case Close =>
    case Replace => ReplaceIsSound(setup, w, base);
    case Unlink => UnlinkIsSound(setup, w, base);
    case GiveUp =>
    case Crash =>
  }

  // ----- Any history

  function Begun(disk: Disk): World {
    World(disk, Down, [], [], 0, 0)
  }

  /** The world `w` can be reached from a disk no run of the exporter was using. */
  ghost predicate Reached(setup: Setup, disk: Disk, actions: seq<Action>, w: World)
    decreases |actions|
  {
    if actions == [] then w == Begun(disk)
    else
      var before := actions[..|actions| - 1];
      var last := actions[|actions| - 1];
      exists v :: Reached(setup, disk, before, v) && Leads(setup, v, last, w)
  }

  ghost predicate Leads(setup: Setup, v: World, a: Action, w: World) {
    && Valid(setup) && Readable(setup, v.disk.table) && v.lasting <= |v.run|
    && (a.Flush? || a.CrashInFlush? ==> Clean(v.disk.journal))
    && Can(setup, v, a) && w == Do(setup, v, a)
  }

  lemma {:induction false} ReachedIsSound(setup: Setup, disk: Disk, actions: seq<Action>, w: World)
    requires Sane(setup, disk) && disk.journal.NoJournal? && Reached(setup, disk, actions, w)
    ensures Sound(setup, w, RowsIn(setup, disk.table))
    decreases |actions|
  {
    if actions == [] {
      assert w.earlier + w.run[..0] == [];
    } else {
      var (before, last) := (actions[..|actions| - 1], actions[|actions| - 1]);
      var v :| Reached(setup, disk, before, v) && Leads(setup, v, last, w);
      ReachedIsSound(setup, disk, before, v);
      ActionIsSound(setup, v, RowsIn(setup, disk.table), last);
    }
  }

  /**
   * After any history, cut anywhere: a prefix of this run's writes, which includes every flushed one, lasts. Opening
   * shows of every record what the last write to it among those that lasted gave it; it fails exactly when the journal
   * breaks off inside a character.
   */
  lemma CrashKeepsAPrefix(setup: Setup, disk: Disk, actions: seq<Action>, w: World)
    requires Sane(setup, disk) && disk.journal.NoJournal? && Reached(setup, disk, actions, w)
    ensures Tagged(RowsIn(setup, disk.table)) && w.flushed <= w.lasting <= |w.run|
    ensures Sane(setup, w.disk)
    ensures Open(setup, w.disk).Failed? <==> w.disk.journal.Journal? && w.disk.journal.tail == Partial(false)
    ensures Open(setup, w.disk).Opened? ==>
              forall record :: Get(Open(setup, w.disk).groups, record)
                == Told(RowsOf(RowsIn(setup, disk.table), record), w.earlier + w.run[..w.lasting], record)
  {
    ReachedIsSound(setup, disk, actions, w);
    OpeningFailsInsideACharacter(setup, w.disk);
    OpenedGroups(setup, w.disk);
  }

  /** A crash while a flush appends leaves a journal that opens exactly when the append was cut between characters. */
  lemma FlushCanBeCut(setup: Setup, w: World, base: seq<Row>, bytes: nat)
    requires Sound(setup, w, base) && Can(setup, w, CrashInFlush(bytes))
    ensures Sane(setup, Do(setup, w, CrashInFlush(bytes)).disk)
    ensures Open(setup, Do(setup, w, CrashInFlush(bytes)).disk).Opened? <==> OnBoundary(Payload(w.process.pending), bytes)
  {
    CrashInFlushIsSound(setup, w, base, bytes);
    OpeningFailsInsideACharacter(setup, Do(setup, w, CrashInFlush(bytes)).disk);
    TornDecodesOnBoundary(w.process.pending, bytes);
  }

  /** The disk a crash leaves that cut the append of a flush after so many bytes. */
  function CutAt(setup: Setup, w: World, bytes: nat): Disk
    requires w.process.Up? && w.lasting <= |w.run| && Clean(w.disk.journal)
  {
    Do(setup, w, CrashInFlush(bytes)).disk
  }

  ghost predicate Opens(setup: Setup, disk: Disk) {
    Valid(setup) && Open(setup, disk).Opened?
  }

  ghost predicate OpensWhereverCut(setup: Setup, w: World)
    requires w.process.Up? && w.lasting <= |w.run| && Clean(w.disk.journal)
  {
    forall bytes :: 0 <= bytes <= LengthOf(w.process.pending) ==> Opens(setup, CutAt(setup, w, bytes))
  }

  /** Wherever its append is cut, a flush leaves a journal that opens, exactly when every id and cell it was to
      append is ASCII. */
  lemma EveryCutOpens(setup: Setup, w: World, base: seq<Row>)
    requires Sound(setup, w, base) && w.process.Up?
    ensures OpensWhereverCut(setup, w) <==>
            forall i :: 0 <= i < |w.process.pending| ==> AsciiEntry(w.process.pending[i])
  {
    var pending := w.process.pending;
    PayloadIsAscii(pending);
    PayloadHasItsLength(pending);
    AsciiIsAllBoundaries(Payload(pending));
    forall bytes | 0 <= bytes <= LengthOf(pending)
      ensures Opens(setup, CutAt(setup, w, bytes)) <==> OnBoundary(Payload(pending), bytes)
    {
      FlushCanBeCut(setup, w, base, bytes);
    }
    if OpensWhereverCut(setup, w) {
      forall k | 0 <= k <= Length(Payload(pending))
        ensures OnBoundary(Payload(pending), k)
      {
        assert Opens(setup, CutAt(setup, w, k));
      }
    }
  }

  // ----- A flushed record that no later run can read

  /** A new file: the record "1" is written and flushed, then the record named by one letter is written. */
  function Letters(letter: char): seq<Action> {
    [Load, Write(Entry("1", [])), Flush, Write(Entry([letter], []))]
  }

  lemma StepReached(setup: Setup, disk: Disk, actions: seq<Action>, v: World, a: Action, w: World)
    requires Reached(setup, disk, actions, v) && Leads(setup, v, a, w)
    ensures Reached(setup, disk, actions + [a], w)
  {
    var all := actions + [a];
    assert all[..|all| - 1] == actions && all[|all| - 1] == a;
    var before := all[..|all| - 1];
    var last := all[|all| - 1];
    assert Reached(setup, disk, before, v) && Leads(setup, v, last, w);
  }

  /** The record is written to a new file. */
  lemma FirstIsWritten(setup: Setup, record: Id) returns (w: World)
    requires Valid(setup)
    ensures Reached(setup, Disk(NoTable, NoJournal), [Load, Write(Entry(record, []))], w)
    ensures w.disk == Disk(NoTable, NoJournal) && w.process.Up? && w.process.pending == w.run == [Entry(record, [])]
    ensures w.flushed == w.lasting == 0
  {
    var (disk, write) := (Disk(NoTable, NoJournal), Write(Entry(record, [])));
    var loaded := Do(setup, Begun(disk), Load);
    StepReached(setup, disk, [], Begun(disk), Load, loaded);
    assert [] + [Load] == [Load];
    w := Do(setup, loaded, write);
    StepReached(setup, disk, [Load], loaded, write, w);
    assert [Load] + [write] == [Load, write];
  }

  lemma FirstIsFlushed(setup: Setup, record: Id) returns (w: World)
    requires Valid(setup)
    ensures Reached(setup, Disk(NoTable, NoJournal), [Load, Write(Entry(record, [])), Flush], w)
    ensures w.disk == Disk(NoTable, Journal([Entry(record, [])], Whole)) && w.process.Up? && w.process.pending == []
    ensures w.run == [Entry(record, [])] && w.flushed == w.lasting == 1
  {
    var before := [Load, Write(Entry(record, []))];
    var written := FirstIsWritten(setup, record);
    w := Do(setup, written, Flush);
    StepReached(setup, Disk(NoTable, NoJournal), before, written, Flush, w);
    assert before + [Flush] == [Load, Write(Entry(record, [])), Flush];
  }

  /** The world those actions lead to. */
  lemma LettersAreReached(setup: Setup, letter: char) returns (w: World)
    requires Valid(setup)
    ensures Reached(setup, Disk(NoTable, NoJournal), Letters(letter), w)
    ensures w.process.Up? && w.process.pending == [Entry([letter], [])] && w.flushed == 1
    ensures w.run == [Entry("1", []), Entry([letter], [])]
  {
    var (before, write) := ([Load, Write(Entry("1", [])), Flush], Write(Entry([letter], [])));
    var flushed := FirstIsFlushed(setup, "1");
    w := Do(setup, flushed, write);
    StepReached(setup, Disk(NoTable, NoJournal), before, flushed, write, w);
    assert before + [write] == Letters(letter);
  }

  /** A run that crashes while it journals a record id that is not ASCII can leave the records flushed before it out of
      reach. */
  lemma ACutLetterKeepsTheJournalShut(setup: Setup, letter: char) returns (w: World, bytes: nat)
    requires Valid(setup) && letter as int >= 0x80
    ensures Reached(setup, Disk(NoTable, NoJournal), Letters(letter), w) && w.flushed == 1 && w.run[0] == Entry("1", [])
    ensures w.process.Up? && Clean(w.disk.journal) && w.lasting <= |w.run| && bytes <= LengthOf(w.process.pending)
    ensures Open(setup, CutAt(setup, w, bytes)).Failed?
  {
    w := LettersAreReached(setup, letter);
    var disk := Disk(NoTable, NoJournal);
    ReachedIsSound(setup, disk, Letters(letter), w);
    EveryCutOpens(setup, w, RowsIn(setup, disk.table));
    assert [letter][0] == letter;
    assert !AsciiEntry(w.process.pending[0]);
    assert !OpensWhereverCut(setup, w);
    bytes :| 0 <= bytes <= LengthOf(w.process.pending) && !Opens(setup, CutAt(setup, w, bytes));
  }
}
