/** What the records a run marks leave in the CSV, wherever it crashes (pipeline_async.py, exporters/csv_async.py). */
module DurableRows {
  import opened CsvTable
  import opened CsvJournal
  import CsvRuns
  import PageTasks

  /** A page's tasks, and the exporter they write to. */
  datatype Joint = Joint(page: PageTasks.State, csv: CsvRuns.World)

  /** A new page of the run, or a step of one of its tasks, with the rows a write hands over. */
  datatype Step =
    | Page(ids: seq<Id>, permits: nat, budget: nat)
    | Task(action: PageTasks.Action, rows: seq<Row>)

  function EntryOf(page: PageTasks.State, i: nat, rows: seq<Row>): Entry
    requires i < |page.ids|
  {
    Entry(page.ids[i], rows)
  }

  predicate Ready(j: Joint) {
    PageTasks.Fits(j.page) && !j.page.durableWrites && j.csv.process.Up? && j.csv.lasting <= |j.csv.run|
    && Clean(j.csv.disk.journal)
  }

  ghost predicate Can(setup: Setup, j: Joint, step: Step) {
    match step
    case Page(_, _, _) => PageTasks.Finished(j.page)
    case Task(a, rows) =>
      PageTasks.Fits(j.page) && PageTasks.Can(j.page, a)
      && (a.Write? ==> CsvRuns.Can(setup, j.csv, CsvRuns.Write(EntryOf(j.page, a.i, rows))))
  }

  /** What the step does to the exporter: a write queues rows, a flush that succeeds appends what is queued. */
  function Exported(setup: Setup, j: Joint, step: Step): CsvRuns.World
    requires Ready(j) && (step.Task? ==> PageTasks.Can(j.page, step.action))
  {
    match step
    case Page(_, _, _) => j.csv
    case Task(a, rows) =>
      if a.Write? then CsvRuns.Do(setup, j.csv, CsvRuns.Write(EntryOf(j.page, a.i, rows)))
      else if a.Flush? && a.ok then CsvRuns.Do(setup, j.csv, CsvRuns.Flush)
      else j.csv
  }

  function Do(setup: Setup, j: Joint, step: Step): Joint
    requires Ready(j) && (step.Task? ==> PageTasks.Can(j.page, step.action))
  {
    match step
    case Page(ids, permits, budget) =>
      Joint(PageTasks.Begun(ids, permits, false, budget, PageTasks.Held(j.page)), j.csv)
    case Task(a, _) => Joint(PageTasks.Do(j.page, a), Exported(setup, j, step))
  }

  // ----- What the tasks hold durable is journaled

  ghost predicate Told(entries: seq<Entry>, id: Id) {
    LastWrite(entries, id) != NeverWritten
  }

  /** The entries of every run so far that lasted. */
  function Lasted(w: CsvRuns.World): seq<Entry>
    requires w.lasting <= |w.run|
  {
    w.earlier + w.run[..w.lasting]
  }

  ghost predicate Buffers(w: CsvRuns.World, ids: set<Id>) {
    forall id :: id in ids ==> Told(w.earlier + w.run, id)
  }

  ghost predicate Journals(w: CsvRuns.World, ids: set<Id>)
    requires w.lasting <= |w.run|
  {
    forall id :: id in ids ==> Told(Lasted(w), id)
  }

  ghost predicate Coupled(setup: Setup, j: Joint, base: seq<Row>) {
    && Ready(j) && CsvRuns.Sound(setup, j.csv, base)
    && Buffers(j.csv, j.page.buffered) && Journals(j.csv, j.page.durable)
  }

  lemma WriteStaysTold(setup: Setup, w: CsvRuns.World, base: seq<Row>, entry: Entry, buffered: set<Id>, durable: set<Id>)
    requires CsvRuns.Sound(setup, w, base) && CsvRuns.Can(setup, w, CsvRuns.Write(entry))
    requires Buffers(w, buffered) && Journals(w, durable)
    ensures
      var after := CsvRuns.Do(setup, w, CsvRuns.Write(entry));
      Buffers(after, buffered + {entry.record}) && Lasted(after) == Lasted(w)
  {
    var after := CsvRuns.Do(setup, w, CsvRuns.Write(entry));
    assert after.run[..w.lasting] == w.run[..w.lasting];
    assert after.earlier + after.run == (w.earlier + w.run) + [entry];
    forall id | id in buffered + {entry.record}
      ensures Told(after.earlier + after.run, id)
    {
      LastWriteOfMore(w.earlier + w.run, [entry], id);
      assert [entry][|[entry]| - 1] == entry;
    }
  }

  /** A flush makes everything written so far last. */
  lemma FlushMakesLast(setup: Setup, w: CsvRuns.World, base: seq<Row>, buffered: set<Id>)
    requires CsvRuns.Sound(setup, w, base) && w.process.Up? && Clean(w.disk.journal) && Buffers(w, buffered)
    ensures
      var after := CsvRuns.Do(setup, w, CsvRuns.Flush);
      && after.earlier + after.run == w.earlier + w.run == Lasted(after) && Journals(after, buffered)
  {
    var after := CsvRuns.Do(setup, w, CsvRuns.Flush);
    assert after.run[..|after.run|] == after.run;
    if w.process.pending == [] {
      assert w.run == w.run[..w.lasting] + w.process.pending == w.run[..w.lasting];
    }
  }

  lemma LastedIsTold(w: CsvRuns.World, ids: set<Id>)
    requires w.lasting <= |w.run| && Journals(w, ids)
    ensures Buffers(w, ids)
  {
    assert w.earlier + w.run == Lasted(w) + w.run[w.lasting..];
    forall id | id in ids
      ensures Told(w.earlier + w.run, id)
    {
      LastWriteOfMore(Lasted(w), w.run[w.lasting..], id);
    }
  }

  lemma StepStaysCoupled(setup: Setup, j: Joint, base: seq<Row>, step: Step)
    requires Coupled(setup, j, base) && Can(setup, j, step)
    ensures Coupled(setup, Do(setup, j, step), base)
  {
    match step
    case Page(_, _, _) =>
    case Task(a, rows) =>
      if a.Write? {
        var entry := EntryOf(j.page, a.i, rows);
        CsvRuns.ActionIsSound(setup, j.csv, base, CsvRuns.Write(entry));
        WriteStaysTold(setup, j.csv, base, entry, j.page.buffered, j.page.durable);
      } else if a.Flush? && a.ok {
        CsvRuns.ActionIsSound(setup, j.csv, base, CsvRuns.Flush);
        LastedIsTold(j.csv, j.page.durable);
        FlushMakesLast(setup, j.csv, base, j.page.buffered + j.page.durable);
      }
  }

  ghost predicate Possible(setup: Setup, j: Joint, steps: seq<Step>)
    decreases |steps|
  {
    steps == []
    || (Ready(j) && Can(setup, j, steps[0]) && Possible(setup, Do(setup, j, steps[0]), steps[1..]))
  }

  ghost function After(setup: Setup, j: Joint, steps: seq<Step>): Joint
    requires Possible(setup, j, steps)
    decreases |steps|
  {
    if steps == [] then j else After(setup, Do(setup, j, steps[0]), steps[1..])
  }

  lemma {:induction false} StepsStayCoupled(setup: Setup, j: Joint, base: seq<Row>, steps: seq<Step>)
    requires Coupled(setup, j, base) && Possible(setup, j, steps)
    ensures Coupled(setup, After(setup, j, steps), base)
    decreases |steps|
  {
    if steps != [] {
      StepStaysCoupled(setup, j, base, steps[0]);
      StepsStayCoupled(setup, Do(setup, j, steps[0]), base, steps[1..]);
    }
  }

  // ----- Only settled records are marked, page after page

  lemma {:induction false} StepsStaySettled(setup: Setup, j: Joint, steps: seq<Step>, before: set<Id>)
    requires PageTasks.Sound(j.page, before) && Possible(setup, j, steps)
    ensures PageTasks.Sound(After(setup, j, steps).page, before)
    decreases |steps|
  {
    if steps != [] {
      var next := Do(setup, j, steps[0]);
      match steps[0] {
        case Page(ids, permits, budget) =>
          PageTasks.BegunIsSound(ids, permits, false, budget, PageTasks.Held(j.page), before);
        case Task(a, _) => PageTasks.ActionIsSound(j.page, a, before);
      }
      StepsStaySettled(setup, next, steps[1..], before);
    }
  }

  // ----- The crash

  /** The exporter crashes at once, or after so many bytes of the append of a flush. */
  datatype Crash = AtOnce | InFlush(bytes: nat)

  function Action(crash: Crash): CsvRuns.Action {
    match crash
    case AtOnce => CsvRuns.Crash
    case InFlush(bytes) => CsvRuns.CrashInFlush(bytes)
  }

  lemma CrashKeepsLasted(setup: Setup, w: CsvRuns.World, base: seq<Row>, crash: Crash, durable: set<Id>)
    requires CsvRuns.Sound(setup, w, base) && w.process.Up? && Clean(w.disk.journal) && Journals(w, durable)
    requires CsvRuns.Can(setup, w, Action(crash))
    ensures
      var after := CsvRuns.Do(setup, w, Action(crash));
      after.lasting <= |after.run| && Journals(after, durable)
  {
    var after := CsvRuns.Do(setup, w, Action(crash));
    CsvRuns.ActionIsSound(setup, w, base, Action(crash));
    var more := after.run[w.lasting..after.lasting];
    assert Lasted(after) == Lasted(w) + more;
    forall id | id in durable
      ensures Told(Lasted(after), id)
    {
      LastWriteOfMore(Lasted(w), more, id);
    }
  }

  /**
   * Wherever a run over any pages crashes, a record it marked was marked before, or judged irrelevant, or it has a
   * write that lasted: opening the CSV shows the rows of its last one.
   */
  lemma {:induction false} MarkedRowsAreShown(setup: Setup, j: Joint, steps: seq<Step>, base: seq<Row>, before: set<Id>, crash: Crash, id: Id)
    requires Coupled(setup, j, base) && PageTasks.Sound(j.page, before) && Possible(setup, j, steps)
    requires CsvRuns.Can(setup, After(setup, j, steps).csv, Action(crash))
    requires Ready(After(setup, j, steps)) && id in After(setup, j, steps).page.marked
    requires
      var left := CsvRuns.Do(setup, After(setup, j, steps).csv, Action(crash));
      Valid(setup) && Open(setup, left.disk).Opened?
    ensures
      var end := After(setup, j, steps);
      var left := CsvRuns.Do(setup, end.csv, Action(crash));
      || id in before || id in end.page.irrelevant
      || (left.lasting <= |left.run| && LastWrite(Lasted(left), id).LastRows?
          && Get(Open(setup, left.disk).groups, id) == LastWrite(Lasted(left), id).rows)
  {
    var end := After(setup, j, steps);
    StepsStayCoupled(setup, j, base, steps);
    StepsStaySettled(setup, j, steps, before);
    CrashKeepsLasted(setup, end.csv, base, crash, end.page.durable);
    CsvRuns.ActionIsSound(setup, end.csv, base, Action(crash));
    var left := CsvRuns.Do(setup, end.csv, Action(crash));
    OpenedGroups(setup, left.disk);
  }
}
