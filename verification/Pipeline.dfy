/** A run over the pages of a listing (pipeline_async.py). */
module Pipeline {
  import opened ListingHead
  import opened ListingPosition
  import opened PageTasks

  datatype Setup = Setup(totalLimit: nat, permits: nat, durableWrites: bool, quarantined: set<Id>, trackable: Id -> bool)

  /**
   * What happens at one turn of the run: a shutdown, a rejected cursor, a failed fetch, a page whose records were
   * gathered and flushed, or a page cut short by a crash or by an exception that no task catches.
   */
  datatype Event =
    | Interrupt
    | Stale
    | Broken
    | Listed(page: Page, gathering: seq<Action>, flushOk: bool)
    | Crash(page: Page, actions: seq<Action>)

  datatype Ending = LimitReached | ListingEnded | Capped | Interrupted | Aborted | Cut

  /**
   * A run: its position and the metadata on disk, what its records left behind, its counters, the pages it accounted
   * for since it started paging at `start`, and every page's report.
   */
  datatype Run = Run(
    place: Place, disk: Saved, holdings: Holdings, total: nat, stalledPages: nat,
    held: seq<Id>, committed: seq<Id>, restarted: bool, ending: Option<Ending>,
    start: Place, trail: seq<Visit>, reports: seq<PageResult>)

  // ----- One page

  /** The listed records that were neither processed nor quarantined, and that have an id to track them by. */
  function Candidates(setup: Setup, marked: set<Id>, ids: seq<Id>): seq<Id> {
    if ids == [] then []
    else
      (if ids[0] !in marked && ids[0] !in setup.quarantined && setup.trackable(ids[0]) then [ids[0]] else [])
      + Candidates(setup, marked, ids[1..])
  }

  function PageOf(setup: Setup, holdings: Holdings, total: nat, page: Page): State
    requires total <= setup.totalLimit
  {
    Begun(Candidates(setup, holdings.marked, page.ids), setup.permits, setup.durableWrites, setup.totalLimit - total, holdings)
  }

  function PageBegun(setup: Setup, run: Run, page: Page): State
    requires run.total <= setup.totalLimit
  {
    PageOf(setup, run.holdings, run.total, page)
  }

  /** The page after its flush, with what the flush made durable marked, record by record from the `i`-th on. */
  function SettledFrom(s: State, i: nat): (after: State)
    requires Fits(s) && s.phase == Flushed && i <= |s.tasks|
    ensures Fits(after) && after.ids == s.ids
    decreases |s.tasks| - i
  {
    if i == |s.tasks| then s
    else SettledFrom(if s.tasks[i] == Written then Do(s, Settle(i)) else s, i + 1)
  }

  function FlushedPage(s: State, ok: bool): (after: State)
    requires Fits(s) && Can(s, Flush(ok))
    ensures Fits(after) && after.ids == s.ids
  {
    var flushed := Do(s, Flush(ok));
    if ok then SettledFrom(flushed, 0) else flushed
  }

  lemma {:induction false} SettledFromIsSound(s: State, i: nat, before: set<Id>)
    requires Sound(s, before) && s.phase == Flushed && i <= |s.tasks|
    requires forall j :: 0 <= j < i ==> s.tasks[j] != Written
    ensures
      var after := SettledFrom(s, i);
      && Sound(after, before) && Finished(after) && after.ids == s.ids && after.budget == s.budget
      && s.marked <= after.marked
    decreases |s.tasks| - i
  {
    if i < |s.tasks| {
      var next := if s.tasks[i] == Written then Do(s, Settle(i)) else s;
      if s.tasks[i] == Written {
        ActionIsSound(s, Settle(i), before);
      }
      SettledFromIsSound(next, i + 1, before);
    }
  }

  lemma FlushedPageIsSound(s: State, ok: bool, before: set<Id>)
    requires Sound(s, before) && Can(s, Flush(ok))
    ensures
      var after := FlushedPage(s, ok);
      && Sound(after, before) && Finished(after) && after.ids == s.ids && after.budget == s.budget
      && s.marked <= after.marked
  {
    ActionIsSound(s, Flush(ok), before);
    if ok {
      SettledFromIsSound(Do(s, Flush(ok)), 0, before);
    }
  }

  // ----- One turn

  predicate Happens(setup: Setup, run: Run, event: Event) {
    && run.ending.None? && run.total < setup.totalLimit
    && match event
       case Listed(page, gathering, _) =>
         var s := PageBegun(setup, run, page);
         && |page.ids| <= page.entries
         && (page.entries > 0 ==> Possible(s, gathering) && Can(After(s, gathering), Flush(true)))
       case Crash(page, actions) => Possible(PageBegun(setup, run, page), actions)
       case _ => true
  }

  /** What a listed page left and reported; an empty page processes nothing. */
  function PageOutcome(setup: Setup, run: Run, event: Event): (Holdings, PageResult)
    requires event.Listed? && Happens(setup, run, event)
  {
    if event.page.entries == 0 then (run.holdings, PageResult(0, 0, 0, [], false))
    else
      var after := FlushedPage(After(PageBegun(setup, run, event.page), event.gathering), event.flushOk);
      (Held(after), Reported(after))
  }

  const STALLED_PAGES_BEFORE_ABORT: nat := 2

  /** The counters after a page's report. */
  function Counted(run: Run, after: Holdings, result: PageResult): Run {
    var progressed := result.processed > 0;
    var cleared := if progressed && !result.flushError then 0 else run.stalledPages;
    run.(holdings := after, reports := run.reports + [result],
         total := run.total + result.processed,
         stalledPages := if result.Stalled() then cleared + 1 else cleared,
         committed := if progressed then run.committed + run.held + result.failed else run.committed,
         held := if progressed then [] else if result.Stalled() then run.held + result.failed else run.held)
  }

  /** The position after a counted page, saved; or the run aborted where it stands. */
  function Placed(setup: Setup, run: Run, page: Page, result: PageResult): Run {
    if (result.Stalled() && run.stalledPages >= STALLED_PAGES_BEFORE_ABORT) || (ListingEnds(page) && run.stalledPages > 0)
    then run.(ending := Some(Aborted))
    else if page.truncated then
      var saved := Truncated(run.place.saved);
      run.(place := run.place.(saved := saved), disk := saved, ending := Some(Capped))
    else
      var (place, more) := Moved(run.place, page, result.Complete());
      var moved := run.(place := place, disk := place.saved, trail := run.trail + [Visit(page, result.Complete())]);
      if !more then moved.(ending := Some(ListingEnded))
      else if run.total >= setup.totalLimit then moved.(ending := Some(LimitReached))
      else moved
  }

  function Turned(setup: Setup, run: Run, event: Event): Run
    requires Happens(setup, run, event)
  {
    match event
    case Interrupt => run.(ending := Some(Interrupted))
    case Broken => run.(ending := Some(Aborted))
    case Stale =>
      if run.restarted then run.(ending := Some(Aborted))
      else
        var place := Restarted(run.place);
        run.(restarted := true, place := place, disk := place.saved, start := place, trail := [])
    case Crash(page, actions) =>
      run.(holdings := Held(After(PageBegun(setup, run, page), actions)), ending := Some(Cut))
    case Listed(page, _, _) =>
      var (after, result) := PageOutcome(setup, run, event);
      Placed(setup, Counted(run, after, result), page, result)
  }

  function Started(setup: Setup, place: Place, holdings: Holdings): Run {
    Run(place, place.saved, holdings, 0, 0, [], [], false,
        if setup.totalLimit == 0 then Some(LimitReached) else None, place, [], [])
  }

  predicate AllHappen(setup: Setup, run: Run, events: seq<Event>)
    decreases |events|
  {
    events == [] || (Happens(setup, run, events[0]) && AllHappen(setup, Turned(setup, run, events[0]), events[1..]))
  }

  function Ran(setup: Setup, run: Run, events: seq<Event>): Run
    requires AllHappen(setup, run, events)
    decreases |events|
  {
    if events == [] then run else Ran(setup, Turned(setup, run, events[0]), events[1..])
  }

  // ----- The run as the source does it

  lemma {:induction false} FailuresStay(ids: seq<Id>, tasks: seq<Task>, i: nat, t: Task)
    requires |ids| == |tasks| && i < |tasks| && tasks[i] != Failed && t != Failed
    ensures FailedIds(ids, tasks[i := t]) == FailedIds(ids, tasks)
  {
    if i == 0 {
      assert tasks[0 := t][1..] == tasks[1..];
    } else {
      assert tasks[i := t][1..] == tasks[1..][i - 1 := t];
      FailuresStay(ids[1..], tasks[1..], i - 1, t);
    }
  }

  /** Sorts the page's results, flushes the exporter, and marks what the flush made durable. */
  method ProcessPage(s: State, flushOk: bool) returns (page: PageResult, after: State)
    requires Fits(s) && Can(s, Flush(flushOk))
    ensures after == FlushedPage(s, flushOk) && page == Reported(after)
  {
    var processed, deferred, written, failed := CollectResults(s.ids, s.tasks);
    after := Do(s, Flush(flushOk));
    if !flushOk {
      return PageResult(processed, deferred, written, failed, true), after;
    }
    for i := 0 to |s.tasks|
      invariant Fits(after) && after.ids == s.ids && after.phase == Flushed && |after.tasks| == |s.tasks|
      invariant SettledFrom(after, i) == FlushedPage(s, true)
      invariant processed == Count(after.tasks, {Processed}) && deferred == Count(after.tasks, {Deferred})
      invariant failed == FailedIds(after.ids, after.tasks)
      invariant forall j :: 0 <= j < i ==> after.tasks[j] != Written
    {
      if after.tasks[i] == Written {
        CountAfter(after.tasks, i, Processed, {Processed});
        CountAfter(after.tasks, i, Processed, {Deferred});
        FailuresStay(after.ids, after.tasks, i, Processed);
        after := Do(after, Settle(i));
        processed := processed + 1;
      }
    }
    CountIsNoneOrSome(after.tasks, {Written});
    return PageResult(processed, deferred, 0, failed, false), after;
  }

  /** What the results of a page come to. */
  datatype Tally = Tally(processed: nat, deferred: nat, written: nat, failed: seq<Id>)

  function TallyOf(ids: seq<Id>, tasks: seq<Task>): Tally
    requires |ids| == |tasks|
  {
    Tally(Count(tasks, {Processed}), Count(tasks, {Deferred}), Count(tasks, {Written}), FailedIds(ids, tasks))
  }

  function Plus(a: Tally, b: Tally): Tally {
    Tally(a.processed + b.processed, a.deferred + b.deferred, a.written + b.written, a.failed + b.failed)
  }

  function One(id: Id, task: Task): Tally {
    Tally(if task == Processed then 1 else 0, if task == Deferred then 1 else 0, if task == Written then 1 else 0,
          if task == Failed then [id] else [])
  }

  /** What one more result adds. */
  lemma TallyGoesOn(ids: seq<Id>, tasks: seq<Task>, i: nat, before: Tally)
    requires |ids| == |tasks| && i < |tasks|
    ensures Plus(before, TallyOf(ids[i..], tasks[i..]))
            == Plus(Plus(before, One(ids[i], tasks[i])), TallyOf(ids[i + 1..], tasks[i + 1..]))
  {
    CountFrom(tasks, i, Processed);
    CountFrom(tasks, i, Deferred);
    CountFrom(tasks, i, Written);
    FailedFrom(ids, tasks, i);
    var (one, rest) := (One(ids[i], tasks[i]).failed, FailedIds(ids[i + 1..], tasks[i + 1..]));
    assert before.failed + (one + rest) == before.failed + one + rest;
  }

  method CollectResults(ids: seq<Id>, tasks: seq<Task>)
    returns (processed: nat, deferred: nat, written: nat, failed: seq<Id>)
    requires |ids| == |tasks|
    ensures processed == Count(tasks, {Processed}) && deferred == Count(tasks, {Deferred})
    ensures written == Count(tasks, {Written}) && failed == FailedIds(ids, tasks)
  {
    processed, deferred, written, failed := 0, 0, 0, [];
    ghost var all := TallyOf(ids, tasks);
    for i := 0 to |tasks|
      invariant Plus(Tally(processed, deferred, written, failed), TallyOf(ids[i..], tasks[i..])) == all
    {
      ghost var before := Tally(processed, deferred, written, failed);
      if tasks[i] == Failed {
        failed := failed + [ids[i]];
      } else if tasks[i] == Written {
        written := written + 1;
      } else if tasks[i] == Deferred {
        deferred := deferred + 1;
      } else if tasks[i] == Processed {
        processed := processed + 1;
      }
      assert Tally(processed, deferred, written, failed) == Plus(before, One(ids[i], tasks[i]));
      TallyGoesOn(ids, tasks, i, before);
    }
  }

  lemma RanOn(setup: Setup, run: Run, events: seq<Event>, i: nat)
    requires i < |events| && AllHappen(setup, run, events[i..])
    ensures Happens(setup, run, events[i]) && AllHappen(setup, Turned(setup, run, events[i]), events[i + 1..])
    ensures Ran(setup, run, events[i..]) == Ran(setup, Turned(setup, run, events[i]), events[i + 1..])
  {
    assert events[i..][1..] == events[i + 1..];
  }

  /** The counters of `_run_pages`: the records processed, the stalled pages, and the failures held and committed. */
  datatype Counters = Counters(total: nat, stalledPages: nat, held: seq<Id>, committed: seq<Id>)

  function CountersOf(run: Run): Counters {
    Counters(run.total, run.stalledPages, run.held, run.committed)
  }

  /** Counts a processed page: progress clears the stalls and commits the failures held so far. */
  method CountPage(ghost run: Run, ghost after: Holdings, counters: Counters, result: PageResult) returns (counted: Counters)
    requires counters == CountersOf(run)
    ensures counted == CountersOf(Counted(run, after, result))
  {
    var total, stalledPages := counters.total + result.processed, counters.stalledPages;
    var held, committed := counters.held, counters.committed;
    if result.processed > 0 && !result.flushError {
      stalledPages := 0;
    }
    if result.processed > 0 {
      committed, held := committed + held + result.failed, [];
    }
    if result.Stalled() {
      stalledPages := stalledPages + 1;
      if result.processed == 0 {
        held := held + result.failed;
      }
    }
    return Counters(total, stalledPages, held, committed);
  }

  /** How a run ended, but for the ceiling it reached. */
  function EndOf(setup: Setup, total: nat, ending: Option<Ending>): Option<Ending> {
    if ending.None? && total >= setup.totalLimit then Some(LimitReached) else ending
  }

  /** Aborts a stalled run, or moves the position and saves its metadata; returns how the run ended, if it did. */
  method PlacePage(setup: Setup, ghost run: Run, position: CursorPosition, page: Page, result: PageResult, stalledPages: nat,
                   disk: Saved)
    returns (ending: Option<Ending>, newDisk: Saved)
    requires run.place == position.State() && run.stalledPages == stalledPages && run.disk == disk && run.ending.None?
    modifies position, position.metadata
    ensures
      var placed := Placed(setup, run, page, result);
      && placed.place == position.State() && placed.disk == newDisk && placed.holdings == run.holdings
      && CountersOf(placed) == CountersOf(run) && placed.restarted == run.restarted
      && placed.ending == EndOf(setup, run.total, ending)
  {
    if result.Stalled() && stalledPages >= STALLED_PAGES_BEFORE_ABORT {
      return Some(Aborted), disk;
    }
    if ListingEnds(page) && stalledPages > 0 {
      return Some(Aborted), disk;
    }
    if page.truncated {
      position.Truncate();
      return Some(Capped), position.metadata.Value();
    }
    var more := position.Advance(page, result.Complete());
    return if more then None else Some(ListingEnded), position.metadata.Value();
  }

  /** Processes a listed page, counts it and accounts for it. */
  method TakePage(setup: Setup, ghost run: Run, event: Event, position: CursorPosition, counters: Counters, holdings: Holdings,
                  disk: Saved)
    returns (ending: Option<Ending>, newCounters: Counters, newHoldings: Holdings, newDisk: Saved)
    requires event.Listed? && Happens(setup, run, event)
    requires run.place == position.State() && CountersOf(run) == counters && run.holdings == holdings && run.disk == disk
    modifies position, position.metadata
    ensures
      var turned := Turned(setup, run, event);
      && turned.place == position.State() && CountersOf(turned) == newCounters && turned.holdings == newHoldings
      && turned.disk == newDisk && turned.restarted == run.restarted
      && turned.ending == EndOf(setup, newCounters.total, ending)
  {
    var result := PageResult(0, 0, 0, [], false);
    newHoldings := holdings;
    if event.page.entries > 0 {
      var s := After(PageOf(setup, holdings, counters.total, event.page), event.gathering);
      var after;
      result, after := ProcessPage(s, event.flushOk);
      newHoldings := Held(after);
    }
    newCounters := CountPage(run, newHoldings, counters, result);
    ending, newDisk := PlacePage(setup, Counted(run, newHoldings, result), position, event.page, result,
                                 newCounters.stalledPages, disk);
  }

  /** What a run's variables say of it; `restarted` and the rest are the locals of `_run_pages`. */
  ghost predicate Tracks(run: Run, place: Place, restarted: bool, counters: Counters, holdings: Holdings, disk: Saved) {
    && run.place == place && run.restarted == restarted && CountersOf(run) == counters
    && run.holdings == holdings && run.disk == disk
  }

  /** One turn of the run. */
  method TakeTurn(setup: Setup, ghost run: Run, event: Event, position: CursorPosition, restarted: bool, counters: Counters,
                  holdings: Holdings, disk: Saved)
    returns (ending: Option<Ending>, restartedNow: bool, newCounters: Counters, newHoldings: Holdings, newDisk: Saved)
    requires Happens(setup, run, event)
    requires Tracks(run, position.State(), restarted, counters, holdings, disk)
    modifies position, position.metadata
    ensures
      var turned := Turned(setup, run, event);
      && Tracks(turned, position.State(), restartedNow, newCounters, newHoldings, newDisk)
      && turned.ending == EndOf(setup, newCounters.total, ending)
  {
    ending, restartedNow, newCounters, newHoldings, newDisk := None, restarted, counters, holdings, disk;
    match event {
      case Interrupt =>
        ending := Some(Interrupted);
      case Broken =>
        ending := Some(Aborted);
      case Stale =>
        if restarted {
          return Some(Aborted), restarted, counters, holdings, disk;
        }
        position.Restart();
        restartedNow, newDisk := true, position.metadata.Value();
      case Crash(page, actions) =>
        newHoldings := Held(After(PageOf(setup, holdings, counters.total, page), actions));
        ending := Some(Cut);
      case Listed(_, _, _) =>
        ending, newCounters, newHoldings, newDisk := TakePage(setup, run, event, position, counters, holdings, disk);
    }
  }

  /**
   * Pages through the listing until the ceiling is reached, the listing ends, or the run is stopped; `None` when it is
   * still going on after the events.
   */
  method RunPages(setup: Setup, position: CursorPosition, before: Holdings, events: seq<Event>)
    returns (ending: Option<Ending>, counters: Counters, holdings: Holdings, disk: Saved)
    requires AllHappen(setup, Started(setup, position.State(), before), events)
    modifies position, position.metadata
    ensures
      var run := Ran(setup, Started(setup, old(position.State()), before), events);
      Tracks(run, position.State(), run.restarted, counters, holdings, disk) && run.ending == ending
  {
    ghost var run := Started(setup, position.State(), before);
    ghost var whole := Ran(setup, run, events);
    counters, holdings, disk, ending := Counters(0, 0, [], []), before, position.metadata.Value(), None;
    var restarted, i := false, 0;
    assert events[0..] == events;
    while counters.total < setup.totalLimit && i < |events|
      invariant i <= |events| && AllHappen(setup, run, events[i..]) && Ran(setup, run, events[i..]) == whole
      invariant Tracks(run, position.State(), restarted, counters, holdings, disk)
      invariant ending == None && run.ending == EndOf(setup, counters.total, None)
      decreases |events| - i
    {
      RanOn(setup, run, events, i);
      ghost var next := Turned(setup, run, events[i]);
      ending, restarted, counters, holdings, disk :=
        TakeTurn(setup, run, events[i], position, restarted, counters, holdings, disk);
      run, i := next, i + 1;
      if ending != None {
        assert events[i..] == [];
        return;
      }
    }
    assert events[i..] == [];
    ending := EndOf(setup, counters.total, None);
  }

  // ----- What every run keeps

  /** Every record of the page that can be tracked is processed or quarantined. */
  ghost predicate AllKnown(setup: Setup, marked: set<Id>, page: Page) {
    forall id :: id in page.ids && setup.trackable(id) ==> id in marked || id in setup.quarantined
  }

  ghost predicate TrailIsKnown(setup: Setup, run: Run) {
    forall i :: 0 <= i < |run.trail| && run.trail[i].complete ==> AllKnown(setup, run.holdings.marked, run.trail[i].page)
  }

  /** Where the run stands, unless it ended at the end of its listing or at the source's cap. */
  ghost predicate Stands(run: Run) {
    GoesThrough(run.trail) && run.place == Travelled(run.start, run.trail) && run.disk == run.place.saved
  }

  ghost predicate Ended(run: Run) {
    && run.trail != [] && GoesThrough(run.trail[..|run.trail| - 1])
    && var end := run.trail[|run.trail| - 1];
       && ListingEnds(end.page)
       && run.disk == Moved(Travelled(run.start, run.trail[..|run.trail| - 1]), end.page, end.complete).0.saved
  }

  function Processings(reports: seq<PageResult>): nat {
    if reports == [] then 0 else Processings(reports[..|reports| - 1]) + reports[|reports| - 1].processed
  }

  function Failures(reports: seq<PageResult>): seq<Id> {
    if reports == [] then [] else Failures(reports[..|reports| - 1]) + reports[|reports| - 1].failed
  }

  /** The reports up to the last one with a processed record. */
  function UpToProgress(reports: seq<PageResult>): seq<PageResult> {
    if reports == [] || reports[|reports| - 1].processed > 0 then reports else UpToProgress(reports[..|reports| - 1])
  }

  /** The stalled pages since the last page that processed a record and was flushed. */
  function Stalls(reports: seq<PageResult>): nat {
    if reports == [] then 0
    else
      var (before, last) := (reports[..|reports| - 1], reports[|reports| - 1]);
      if last.Stalled() then Stalls(before) + 1 else if last.processed > 0 then 0 else Stalls(before)
  }

  /** From the `i`-th page on, no page processed a record and was flushed. */
  ghost predicate NoProgressFrom(reports: seq<PageResult>, i: nat) {
    forall k :: i <= k < |reports| ==> reports[k].processed == 0 || reports[k].flushError
  }

  /** A page stalled, and none has made progress since. */
  ghost predicate HasStalled(reports: seq<PageResult>) {
    exists i :: 0 <= i < |reports| && reports[i].Stalled() && NoProgressFrom(reports, i)
  }

  /** Two pages stalled, and none made progress between them or since. */
  ghost predicate HasStalledTwice(reports: seq<PageResult>) {
    exists i, j :: 0 <= i < j < |reports| && reports[i].Stalled() && reports[j].Stalled() && NoProgressFrom(reports, i)
  }

  lemma {:induction false} StallsTell(reports: seq<PageResult>)
    ensures Stalls(reports) >= 1 <==> HasStalled(reports)
    ensures Stalls(reports) >= 2 <==> HasStalledTwice(reports)
  {
    if reports != [] {
      var before := reports[..|reports| - 1];
      StallsTell(before);
      StalledOneMore(before, reports[|reports| - 1], reports);
      StalledTwiceOneMore(before, reports[|reports| - 1], reports);
    }
  }

  lemma {:induction false} NoProgressOneMore(before: seq<PageResult>, last: PageResult, reports: seq<PageResult>, i: nat)
    requires reports == before + [last] && i <= |before|
    ensures NoProgressFrom(reports, i) <==> NoProgressFrom(before, i) && (last.processed == 0 || last.flushError)
  {
    assert reports[|before|] == last;
    assert forall k :: i <= k < |before| ==> reports[k] == before[k];
  }

  lemma {:induction false} StalledOneMore(before: seq<PageResult>, last: PageResult, reports: seq<PageResult>)
    requires reports == before + [last]
    ensures HasStalled(reports) <==> last.Stalled() || (HasStalled(before) && last.processed == 0)
  {
    if HasStalled(reports) {
      var i :| 0 <= i < |reports| && reports[i].Stalled() && NoProgressFrom(reports, i);
      if i < |before| {
        NoProgressOneMore(before, last, reports, i);
        assert before[i].Stalled() && NoProgressFrom(before, i);
      }
    }
    if last.Stalled() {
      assert reports[|before|].Stalled() && NoProgressFrom(reports, |before|);
    } else if HasStalled(before) && last.processed == 0 {
      var i :| 0 <= i < |before| && before[i].Stalled() && NoProgressFrom(before, i);
      NoProgressOneMore(before, last, reports, i);
      assert reports[i].Stalled() && NoProgressFrom(reports, i);
    }
  }

  lemma {:induction false} StalledTwiceOneMore(before: seq<PageResult>, last: PageResult, reports: seq<PageResult>)
    requires reports == before + [last]
    ensures HasStalledTwice(reports)
            <==> (last.Stalled() && HasStalled(before)) || (HasStalledTwice(before) && (last.Stalled() || last.processed == 0))
  {
    if HasStalledTwice(reports) {
      var i, j :| 0 <= i < j < |reports| && reports[i].Stalled() && reports[j].Stalled() && NoProgressFrom(reports, i);
      NoProgressOneMore(before, last, reports, i);
      assert before[i].Stalled() && NoProgressFrom(before, i);
      if j < |before| {
        assert before[j].Stalled();
      }
    }
    if last.Stalled() && HasStalled(before) {
      var i :| 0 <= i < |before| && before[i].Stalled() && NoProgressFrom(before, i);
      NoProgressOneMore(before, last, reports, i);
      assert reports[i].Stalled() && reports[|before|].Stalled();
    } else if HasStalledTwice(before) && last.processed == 0 {
      var i, j :| 0 <= i < j < |before| && before[i].Stalled() && before[j].Stalled() && NoProgressFrom(before, i);
      NoProgressOneMore(before, last, reports, i);
      assert reports[i].Stalled() && reports[j].Stalled();
    }
  }

  /**
   * The total counts what the pages processed. Failures are committed up to the last page that processed a record,
   * and those of the pages since are held back.
   */
  ghost predicate CountersTell(run: Run) {
    && run.total == Processings(run.reports) && run.stalledPages == Stalls(run.reports)
    && run.committed == Failures(UpToProgress(run.reports)) && run.committed + run.held == Failures(run.reports)
  }

  ghost predicate Kept(setup: Setup, run: Run, before: set<Id>) {
    && run.total <= setup.totalLimit && run.start.settled
    && run.holdings.marked <= before + run.holdings.irrelevant + run.holdings.durable
    && TrailIsKnown(setup, run) && CountersTell(run)
    && (run.ending == None ==> run.stalledPages < STALLED_PAGES_BEFORE_ABORT)
    && IsPlaced(run)
  }

  ghost predicate IsPlaced(run: Run) {
    match run.ending
    case Some(ListingEnded) => Ended(run)
    case Some(Capped) => run.disk.cursor == NoCursor
    case _ => Stands(run)
  }

  lemma {:induction false} CandidatesAreTheRest(setup: Setup, marked: set<Id>, ids: seq<Id>, id: Id)
    requires id in ids && setup.trackable(id)
    ensures id in marked || id in setup.quarantined || id in Candidates(setup, marked, ids)
  {
    if id != ids[0] {
      CandidatesAreTheRest(setup, marked, ids[1..], id);
    }
  }

  /** A page's tasks are for the listed records that can be tracked and are neither processed nor quarantined, and for no others. */
  lemma {:induction false} CandidatesAre(setup: Setup, marked: set<Id>, ids: seq<Id>, id: Id)
    ensures id in Candidates(setup, marked, ids)
            <==> id in ids && id !in marked && id !in setup.quarantined && setup.trackable(id)
  {
    if ids != [] {
      CandidatesAre(setup, marked, ids[1..], id);
    }
  }

  /** They come in the order they are listed in, each as often as it is listed. */
  lemma {:induction false} CandidatesKeepOrder(setup: Setup, marked: set<Id>, ids: seq<Id>, more: seq<Id>)
    ensures Candidates(setup, marked, ids + more) == Candidates(setup, marked, ids) + Candidates(setup, marked, more)
    ensures |ids| == 1 ==> |Candidates(setup, marked, ids)| <= 1
  {
    if ids == [] {
      assert ids + more == more;
    } else {
      var rest := ids[1..];
      CandidatesKeepOrder(setup, marked, rest, more);
      assert (ids + more)[0] == ids[0] && (ids + more)[1..] == rest + more;
    }
  }

  lemma {:induction false} RanOneMore(setup: Setup, run: Run, events: seq<Event>, i: nat)
    requires AllHappen(setup, run, events) && i < |events|
    ensures AllHappen(setup, run, events[..i]) && Happens(setup, Ran(setup, run, events[..i]), events[i])
    ensures AllHappen(setup, run, events[..i + 1])
    ensures Ran(setup, run, events[..i + 1]) == Turned(setup, Ran(setup, run, events[..i]), events[i])
    decreases |events|
  {
    var first := events[..i + 1];
    if i == 0 {
      assert first == [events[0]] && first[1..] == [];
    } else {
      var (next, rest) := (Turned(setup, run, events[0]), events[1..]);
      RanOneMore(setup, next, rest, i - 1);
      assert events[..i][1..] == rest[..i - 1] && first[1..] == rest[..i];
    }
  }

  lemma {:induction false} MarksStay(setup: Setup, run: Run, event: Event, before: set<Id>)
    requires Happens(setup, run, event) && run.holdings.marked <= before + run.holdings.irrelevant + run.holdings.durable
    ensures run.holdings.marked <= Turned(setup, run, event).holdings.marked
  {
    match event
    case Listed(page, _, _) =>
      ListedPageMarks(setup, run, event, before);
      var (after, result) := PageOutcome(setup, run, event);
      PlacedCountsAlike(setup, Counted(run, after, result), page, result);
    case Crash(page, actions) => CutPageMarks(setup, run, page, actions, before);
    case _ =>
  }

  lemma {:induction false} ListedPageMarks(setup: Setup, run: Run, event: Event, before: set<Id>)
    requires event.Listed? && Happens(setup, run, event)
    requires run.holdings.marked <= before + run.holdings.irrelevant + run.holdings.durable
    ensures run.holdings.marked <= PageOutcome(setup, run, event).0.marked
  {
    if event.page.entries > 0 {
      PageIsKept(setup, run, event, before);
    }
  }

  lemma {:induction false} CutPageMarks(setup: Setup, run: Run, page: Page, actions: seq<Action>, before: set<Id>)
    requires run.total <= setup.totalLimit && Possible(PageBegun(setup, run, page), actions)
    requires run.holdings.marked <= before + run.holdings.irrelevant + run.holdings.durable
    ensures run.holdings.marked <= After(PageBegun(setup, run, page), actions).marked
  {
    var s := PageBegun(setup, run, page);
    BegunIsSound(s.ids, setup.permits, setup.durableWrites, setup.totalLimit - run.total, run.holdings, before);
    ActionsAreSound(s, actions, before);
  }

  lemma {:induction false} MarksStayToTheEnd(setup: Setup, run: Run, events: seq<Event>, i: nat, j: nat, before: set<Id>)
    requires AllHappen(setup, run, events) && Kept(setup, run, before) && i <= j <= |events|
    ensures AllHappen(setup, run, events[..i]) && AllHappen(setup, run, events[..j])
    ensures Kept(setup, Ran(setup, run, events[..j]), before)
    ensures Ran(setup, run, events[..i]).holdings.marked <= Ran(setup, run, events[..j]).holdings.marked
    decreases j
  {
    if j == 0 {
      assert events[..0] == [];
    } else {
      RanOneMore(setup, run, events, j - 1);
      MarksStayToTheEnd(setup, run, events, if i < j then i else j - 1, j - 1, before);
      TurnedIsKept(setup, Ran(setup, run, events[..j - 1]), events[j - 1], before);
      MarksStay(setup, Ran(setup, run, events[..j - 1]), events[j - 1], before);
    }
  }

  /** Whatever a record's fate: once it is marked, or if it is quarantined, no later page of the run has a task for it. */
  lemma NeverReprocessed(setup: Setup, place: Place, holdings: Holdings, events: seq<Event>, i: nat, j: nat, page: Page, id: Id)
    requires place.settled && AllHappen(setup, Started(setup, place, holdings), events) && i <= j < |events|
    requires events[j].Listed? || events[j].Crash?
    requires AllHappen(setup, Started(setup, place, holdings), events[..i])
    requires id in Ran(setup, Started(setup, place, holdings), events[..i]).holdings.marked || id in setup.quarantined
    ensures AllHappen(setup, Started(setup, place, holdings), events[..j])
    ensures
      var run := Ran(setup, Started(setup, place, holdings), events[..j]);
      Happens(setup, run, events[j]) && id !in PageBegun(setup, run, events[j].page).ids
  {
    var start := Started(setup, place, holdings);
    MarksStayToTheEnd(setup, start, events, i, j, holdings.marked);
    RanOneMore(setup, start, events, j);
    CandidatesAre(setup, Ran(setup, start, events[..j]).holdings.marked, events[j].page.ids, id);
  }

  lemma {:induction false} NothingToDo(s: State, actions: seq<Action>)
    requires Fits(s) && s.ids == [] && s.phase == Gathering && Possible(s, actions) && After(s, actions).phase == Gathering
    ensures After(s, actions) == s
    decreases |actions|
  {
    if actions != [] {
      var next := Do(s, actions[0]);
      assert actions[0].Flush? && next.phase != Gathering;
      PhaseStays(next, actions[1..]);
    }
  }

  lemma {:induction false} PhaseStays(s: State, actions: seq<Action>)
    requires Fits(s) && s.phase != Gathering && Possible(s, actions)
    ensures After(s, actions).phase != Gathering
    decreases |actions|
  {
    if actions != [] {
      PhaseStays(Do(s, actions[0]), actions[1..]);
    }
  }

  /** A page of records that are all processed, quarantined or not to be tracked does nothing, and is complete. */
  lemma KnownPageIsComplete(setup: Setup, run: Run, event: Event)
    requires event.Listed? && Happens(setup, run, event) && AllKnown(setup, run.holdings.marked, event.page)
    ensures
      var (after, result) := PageOutcome(setup, run, event);
      result.processed == 0 && result.failed == [] && result.Complete() && after.marked == run.holdings.marked
  {
    if event.page.entries > 0 {
      var s := PageBegun(setup, run, event.page);
      if s.ids != [] {
        CandidatesAre(setup, run.holdings.marked, event.page.ids, s.ids[0]);
      }
      NothingToDo(s, event.gathering);
    }
  }

  lemma {:induction false} SettledFromStaysUnfailed(s: State, i: nat)
    requires Fits(s) && s.phase == Flushed && i <= |s.tasks| && Unfailed(s)
    ensures Unfailed(SettledFrom(s, i)) && SettledFrom(s, i).phase == Flushed
    decreases |s.tasks| - i
  {
    if i < |s.tasks| {
      var next := if s.tasks[i] == Written then Do(s, Settle(i)) else s;
      if s.tasks[i] == Written {
        FaultlessStep(s, Settle(i));
      }
      SettledFromStaysUnfailed(next, i + 1);
    }
  }

  /** A page on which nothing fails or is stopped uses up what is left of the run's limit, or leaves no record unsettled. */
  lemma FaultlessPageIsWhole(setup: Setup, run: Run, event: Event, before: set<Id>)
    requires event.Listed? && Happens(setup, run, event) && event.page.entries > 0 && event.flushOk
    requires run.holdings.marked <= before + run.holdings.irrelevant + run.holdings.durable
    requires forall i :: 0 <= i < |event.gathering| ==> Faultless(event.gathering[i])
    ensures
      var result := PageOutcome(setup, run, event).1;
      && result.failed == [] && (result.deferred > 0 ==> run.total + result.processed == setup.totalLimit)
      && (|PageBegun(setup, run, event.page).ids| <= setup.totalLimit - run.total ==> result.Complete())
  {
    var s := PageBegun(setup, run, event.page);
    BegunIsSound(s.ids, setup.permits, setup.durableWrites, setup.totalLimit - run.total, run.holdings, before);
    ActionsAreSound(s, event.gathering, before);
    FaultlessSteps(s, event.gathering);
    var gathered := After(s, event.gathering);
    FlushedPageIsSound(gathered, true, before);
    FaultlessStep(gathered, Flush(true));
    SettledFromStaysUnfailed(Do(gathered, Flush(true)), 0);
    UnfailedIsWhole(FlushedPage(gathered, true), before);
  }

  /** A page's outcome: within its budget, marks only what was settled, and complete only when all of it is known. */
  lemma PageIsKept(setup: Setup, run: Run, event: Event, before: set<Id>)
    requires event.Listed? && Happens(setup, run, event) && event.page.entries > 0
    requires run.holdings.marked <= before + run.holdings.irrelevant + run.holdings.durable
    ensures
      var (after, result) := PageOutcome(setup, run, event);
      && run.total + result.processed <= setup.totalLimit
      && after.marked <= before + after.irrelevant + after.durable && run.holdings.marked <= after.marked
      && (result.Complete() ==> AllKnown(setup, after.marked, event.page))
  {
    var s := PageBegun(setup, run, event.page);
    BegunIsSound(s.ids, setup.permits, setup.durableWrites, setup.totalLimit - run.total, run.holdings, before);
    ActionsAreSound(s, event.gathering, before);
    FlushedPageIsSound(After(s, event.gathering), event.flushOk, before);
    var after := FlushedPage(After(s, event.gathering), event.flushOk);
    PageKeepsItsWord(after, before);
    if Reported(after).Complete() {
      forall id | id in event.page.ids && setup.trackable(id)
        ensures id in after.marked || id in setup.quarantined
      {
        CandidatesAreTheRest(setup, run.holdings.marked, event.page.ids, id);
      }
    }
  }

  lemma {:induction false} OneMoreReport(before: seq<PageResult>, result: PageResult, reports: seq<PageResult>)
    requires reports == before + [result]
    ensures Processings(reports) == Processings(before) + result.processed
    ensures Failures(reports) == Failures(before) + result.failed
    ensures UpToProgress(reports) == if result.processed > 0 then reports else UpToProgress(before)
    ensures Stalls(reports)
            == if result.Stalled() then Stalls(before) + 1 else if result.processed > 0 then 0 else Stalls(before)
  {
    assert reports[..|reports| - 1] == before;
  }

  lemma {:induction false} CountersStillTell(run: Run, after: Holdings, result: PageResult)
    requires CountersTell(run)
    ensures CountersTell(Counted(run, after, result))
  {
    OneMoreReport(run.reports, result, run.reports + [result]);
    StallsCount(run, after, result, run.reports + [result]);
    HeldGoesOn(run.committed, run.held, result.failed);
  }

  lemma HeldGoesOn(committed: seq<Id>, held: seq<Id>, failed: seq<Id>)
    ensures committed + (held + failed) == committed + held + failed == committed + held + failed + []
    ensures failed == [] ==> committed + held == committed + held + failed
  {
  }

  lemma CountedIsKept(setup: Setup, run: Run, event: Event, before: set<Id>)
    requires event.Listed? && Happens(setup, run, event) && Kept(setup, run, before)
    ensures
      var (after, result) := PageOutcome(setup, run, event);
      var counted := Counted(run, after, result);
      && counted.total <= setup.totalLimit && CountersTell(counted)
      && after.marked <= before + after.irrelevant + after.durable
      && TrailIsKnown(setup, counted) && (result.Complete() ==> AllKnown(setup, after.marked, event.page))
  {
    var (after, result) := PageOutcome(setup, run, event);
    CountersStillTell(run, after, result);
    if event.page.entries > 0 {
      PageIsKept(setup, run, event, before);
    }
    var counted := Counted(run, after, result);
    forall i | 0 <= i < |counted.trail| && counted.trail[i].complete
      ensures AllKnown(setup, after.marked, counted.trail[i].page)
    {
      assert AllKnown(setup, run.holdings.marked, run.trail[i].page);
    }
  }

  lemma StandsOneOn(run: Run, next: Run, visit: Visit)
    requires Stands(run) && !ListingEnds(visit.page)
    requires next.start == run.start && next.trail == run.trail + [visit]
    requires next.place == Moved(run.place, visit.page, visit.complete).0 && next.disk == next.place.saved
    ensures Stands(next)
  {
    assert next.trail[..|next.trail| - 1] == run.trail;
  }

  lemma EndsOneOn(run: Run, next: Run, visit: Visit)
    requires Stands(run) && ListingEnds(visit.page)
    requires next.start == run.start && next.trail == run.trail + [visit]
    requires next.disk == Moved(run.place, visit.page, visit.complete).0.saved
    ensures Ended(next)
  {
    assert next.trail[..|next.trail| - 1] == run.trail;
  }

  lemma PlacedIsPlaced(setup: Setup, run: Run, page: Page, result: PageResult)
    requires run.ending == None && Stands(run)
    ensures IsPlaced(Placed(setup, run, page, result))
  {
    var placed := Placed(setup, run, page, result);
    var visit := Visit(page, result.Complete());
    if placed.ending == Some(ListingEnded) {
      EndsOneOn(run, placed, visit);
    } else if placed.ending == None || placed.ending == Some(LimitReached) {
      StandsOneOn(run, placed, visit);
    } else if placed.ending == Some(Aborted) {
      assert Stands(placed);
    }
  }

  lemma PlacedTrailIsKnown(setup: Setup, run: Run, page: Page, result: PageResult)
    requires TrailIsKnown(setup, run) && (result.Complete() ==> AllKnown(setup, run.holdings.marked, page))
    ensures TrailIsKnown(setup, Placed(setup, run, page, result))
  {
    var placed := Placed(setup, run, page, result);
    forall i | 0 <= i < |placed.trail| && placed.trail[i].complete
      ensures AllKnown(setup, placed.holdings.marked, placed.trail[i].page)
    {
      if i < |run.trail| {
        assert placed.trail[i] == run.trail[i];
      } else {
        assert placed.trail[i] == Visit(page, result.Complete());
      }
    }
  }

  lemma PlacedIsKept(setup: Setup, run: Run, page: Page, result: PageResult, before: set<Id>)
    requires run.ending == None && Stands(run) && run.start.settled && run.total <= setup.totalLimit
    requires run.holdings.marked <= before + run.holdings.irrelevant + run.holdings.durable
    requires TrailIsKnown(setup, run) && CountersTell(run)
    requires result.Complete() ==> AllKnown(setup, run.holdings.marked, page)
    requires !result.Stalled() ==> run.stalledPages < STALLED_PAGES_BEFORE_ABORT
    ensures Kept(setup, Placed(setup, run, page, result), before)
  {
    PlacedIsPlaced(setup, run, page, result);
    PlacedTrailIsKnown(setup, run, page, result);
    PlacedCountsAlike(setup, run, page, result);
  }

  lemma PlacedCountsAlike(setup: Setup, run: Run, page: Page, result: PageResult)
    ensures
      var placed := Placed(setup, run, page, result);
      && CountersOf(placed) == CountersOf(run) && placed.holdings == run.holdings && placed.reports == run.reports
      && placed.start == run.start
  {
  }

  lemma TurnedIsKept(setup: Setup, run: Run, event: Event, before: set<Id>)
    requires Happens(setup, run, event) && Kept(setup, run, before)
    ensures Kept(setup, Turned(setup, run, event), before)
  {
    match event
    case Listed(page, _, _) =>
      CountedIsKept(setup, run, event, before);
      var (after, result) := PageOutcome(setup, run, event);
      PlacedIsKept(setup, Counted(run, after, result), page, result, before);
    case Crash(page, actions) =>
      var s := PageBegun(setup, run, page);
      BegunIsSound(s.ids, setup.permits, setup.durableWrites, setup.totalLimit - run.total, run.holdings, before);
      ActionsAreSound(s, actions, before);
      forall i | 0 <= i < |run.trail| && run.trail[i].complete
        ensures AllKnown(setup, After(s, actions).marked, run.trail[i].page)
      {
        assert AllKnown(setup, run.holdings.marked, run.trail[i].page);
      }
    case _ =>
  }

  lemma {:induction false} RanIsKept(setup: Setup, run: Run, events: seq<Event>, before: set<Id>)
    requires AllHappen(setup, run, events) && Kept(setup, run, before)
    ensures Kept(setup, Ran(setup, run, events), before)
    decreases |events|
  {
    if events != [] {
      TurnedIsKept(setup, run, events[0], before);
      RanIsKept(setup, Turned(setup, run, events[0]), events[1..], before);
    }
  }

  /**
   * However a run ends: it processed no more than its limit, it marked only what was irrelevant or durable, and
   * failures count only once a page has processed a record since.
   */
  lemma RunKeepsItsWord(setup: Setup, place: Place, holdings: Holdings, events: seq<Event>)
    requires place.settled && AllHappen(setup, Started(setup, place, holdings), events)
    ensures
      var run := Ran(setup, Started(setup, place, holdings), events);
      && run.total == Processings(run.reports) <= setup.totalLimit
      && run.holdings.marked <= holdings.marked + run.holdings.irrelevant + run.holdings.durable
      && run.committed == Failures(UpToProgress(run.reports))
      && (run.ending == None ==> run.stalledPages < STALLED_PAGES_BEFORE_ABORT)
  {
    RanIsKept(setup, Started(setup, place, holdings), events, holdings.marked);
  }

  /**
   * The cursor on disk is that of a page of this run, all of whose earlier pages are known: the first page with an
   * unsettled record at the latest. Before a page settled it is the one the run was given, or the first page's after a
   * restart; past the end of the listing it is saved only when every page is known, and at the source's cap not at all.
   */
  lemma {:induction false} SavedCursorIsSafe(setup: Setup, place: Place, holdings: Holdings, events: seq<Event>)
    requires place.settled && AllHappen(setup, Started(setup, place, holdings), events)
    ensures
      var run := Ran(setup, Started(setup, place, holdings), events);
      var k := SettledPages(run.trail);
      && (forall i :: 0 <= i < k ==> AllKnown(setup, run.holdings.marked, run.trail[i].page))
      && (run.ending == Some(Capped) || run.disk.cursor == CursorAfter(run, k))
      && (run.ending == Some(Capped) ==> run.disk.cursor == NoCursor)
  {
    var run := Ran(setup, Started(setup, place, holdings), events);
    RanIsKept(setup, Started(setup, place, holdings), events, holdings.marked);
    SavedIsCursorAfter(setup, run, holdings.marked);
  }

  lemma {:induction false} SavedIsCursorAfter(setup: Setup, run: Run, before: set<Id>)
    requires Kept(setup, run, before)
    ensures run.ending == Some(Capped) || run.disk.cursor == CursorAfter(run, SettledPages(run.trail))
  {
    if run.ending == Some(ListingEnded) {
      var last := |run.trail| - 1;
      EndIsSavedWhenSettled(run.start, run.trail[..last], run.trail[last]);
      assert run.trail == run.trail[..last] + [run.trail[last]];
    } else if run.ending != Some(Capped) {
      SavedCursorWaits(run.start, run.trail);
    }
  }

  /** The cursor to save after the first `k` pages of the run's trail settled. */
  function CursorAfter(run: Run, k: nat): Cursor
    requires k <= |run.trail|
  {
    if k == 0 then run.start.saved.cursor
    else if run.ending == Some(ListingEnded) && k == |run.trail| then EndCursor(Travelled(run.start, run.trail[..k - 1]), run.trail[k - 1].page)
    else run.trail[k - 1].page.next
  }

  /** A page aborts the run if and only if it is the second to stall with no progress since the first, or the last of the
      listing with such a one before it or itself. */
  lemma {:induction false} StalledRunAborts(setup: Setup, run: Run, event: Event, before: set<Id>) returns (reports: seq<PageResult>)
    requires event.Listed? && Happens(setup, run, event) && Kept(setup, run, before)
    ensures reports == Turned(setup, run, event).reports == run.reports + [PageOutcome(setup, run, event).1]
    ensures Turned(setup, run, event).ending == Some(Aborted)
            <==> HasStalledTwice(reports) || (ListingEnds(event.page) && HasStalled(reports))
  {
    var (after, result) := PageOutcome(setup, run, event);
    var counted := Counted(run, after, result);
    reports := run.reports + [result];
    StallsCount(run, after, result, reports);
    PlacedCountsAlike(setup, counted, event.page, result);
    StallsTell(reports);
    PlacedAborts(setup, run, counted, event.page, result);
    TurnedIsPlaced(setup, run, event, after, result);
  }

  lemma {:induction false} StallsCount(run: Run, after: Holdings, result: PageResult, reports: seq<PageResult>)
    requires run.stalledPages == Stalls(run.reports) && reports == run.reports + [result]
    ensures Counted(run, after, result).stalledPages == Stalls(reports) && Counted(run, after, result).reports == reports
  {
    OneMoreReport(run.reports, result, reports);
  }

  lemma TurnedIsPlaced(setup: Setup, run: Run, event: Event, after: Holdings, result: PageResult)
    requires event.Listed? && Happens(setup, run, event) && PageOutcome(setup, run, event) == (after, result)
    ensures Turned(setup, run, event) == Placed(setup, Counted(run, after, result), event.page, result)
  {
  }

  lemma {:induction false} PlacedAborts(setup: Setup, run: Run, counted: Run, page: Page, result: PageResult)
    requires run.ending == None && run.stalledPages < STALLED_PAGES_BEFORE_ABORT && counted.ending == None
    requires
      counted.stalledPages
      == if result.Stalled() then run.stalledPages + 1 else if result.processed > 0 then 0 else run.stalledPages
    ensures Placed(setup, counted, page, result).ending == Some(Aborted)
            <==> counted.stalledPages >= 2 || (ListingEnds(page) && counted.stalledPages >= 1)
  {
  }

  /** What each ending of a run comes from. */
  lemma {:induction false} RunEndsAsItShould(setup: Setup, run: Run, event: Event, before: set<Id>) returns (reports: seq<PageResult>)
    requires Happens(setup, run, event) && Kept(setup, run, before)
    ensures event.Listed? ==> reports == run.reports + [PageOutcome(setup, run, event).1]
    ensures
      var ending := Turned(setup, run, event).ending;
      && (ending == Some(Interrupted) <==> event.Interrupt?)
      && (ending == Some(Cut) <==> event.Crash?)
      && (ending == Some(Aborted) <==>
          || event.Broken? || (event.Stale? && run.restarted)
          || (event.Listed? && (HasStalledTwice(reports) || (ListingEnds(event.page) && HasStalled(reports)))))
      && (ending == Some(Capped) <==> event.Listed? && event.page.truncated && !HasStalled(reports))
      && (ending == Some(ListingEnded) <==>
          event.Listed? && !event.page.truncated && ListingEnds(event.page) && !HasStalled(reports))
      && (ending == Some(LimitReached) <==>
          && event.Listed? && !ListingEnds(event.page) && !HasStalledTwice(reports)
          && Turned(setup, run, event).total == setup.totalLimit)
  {
    reports := [];
    if event.Listed? {
      reports := StalledRunAborts(setup, run, event, before);
      StallsTell(reports);
      TurnedIsKept(setup, run, event, before);
      var (after, result) := PageOutcome(setup, run, event);
      TurnedIsPlaced(setup, run, event, after, result);
      PlacedCountsAlike(setup, Counted(run, after, result), event.page, result);
      PlacedEnds(setup, Counted(run, after, result), event.page, result);
    }
  }

  lemma {:induction false} PlacedEnds(setup: Setup, run: Run, page: Page, result: PageResult)
    requires run.ending == None
    ensures
      var ending := Placed(setup, run, page, result).ending;
      && ending != Some(Interrupted) && ending != Some(Cut)
      && (ending == Some(Capped) <==> ending != Some(Aborted) && page.truncated)
      && (ending == Some(ListingEnded) <==> ending != Some(Aborted) && !page.truncated && ListingEnds(page))
      && (ending == Some(LimitReached) <==> ending != Some(Aborted) && !ListingEnds(page) && run.total >= setup.totalLimit)
  {
  }

  /** A run that may process nothing is over before its first page; any other begins. */
  lemma LimitOfNothing(setup: Setup, place: Place, holdings: Holdings, events: seq<Event>)
    requires AllHappen(setup, Started(setup, place, holdings), events)
    ensures setup.totalLimit == 0 ==> events == [] && Ran(setup, Started(setup, place, holdings), events).ending == Some(LimitReached)
    ensures setup.totalLimit > 0 ==> Started(setup, place, holdings).ending == None
  {
  }

  ghost predicate TellsRestart(place: Place, run: Run, events: seq<Event>) {
    (run.restarted <==> Stale in events) && if run.restarted then FromTheFirstPage(run.start) else run.start == place
  }

  lemma {:induction false} TellsRestartOneMore(setup: Setup, place: Place, run: Run, before: seq<Event>, event: Event, events: seq<Event>)
    requires TellsRestart(place, run, before) && Happens(setup, run, event) && events == before + [event]
    ensures TellsRestart(place, Turned(setup, run, event), events)
  {
    TurnRestarts(setup, run, event);
  }

  lemma {:induction false} RestartsUpTo(setup: Setup, place: Place, first: Run, events: seq<Event>, j: nat)
    requires AllHappen(setup, first, events) && j <= |events| && first.start == place && !first.restarted
    ensures AllHappen(setup, first, events[..j]) && TellsRestart(place, Ran(setup, first, events[..j]), events[..j])
    decreases j
  {
    if j > 0 {
      var before := j - 1;
      RestartsUpTo(setup, place, first, events, before);
      RanOneMore(setup, first, events, before);
      TellsRestartOneMore(setup, place, Ran(setup, first, events[..before]), events[..before], events[before], events[..j]);
    }
  }

  /** A run goes back to its first page if the source rejects its cursor, and starts from there as if afresh. */
  lemma {:induction false} RunRestarts(setup: Setup, place: Place, holdings: Holdings, events: seq<Event>)
    requires AllHappen(setup, Started(setup, place, holdings), events)
    ensures TellsRestart(place, Ran(setup, Started(setup, place, holdings), events), events)
  {
    RestartsUpTo(setup, place, Started(setup, place, holdings), events, |events|);
    assert events[..|events|] == events;
  }

  ghost predicate FromTheFirstPage(place: Place) {
    place.settled && place.cursor == NoCursor && place.saved.cursor == NoCursor
  }

  /** A second rejection ends the run. */
  lemma {:induction false} RunRestartsOnce(setup: Setup, place: Place, holdings: Holdings, events: seq<Event>, i: nat, j: nat)
    requires AllHappen(setup, Started(setup, place, holdings), events) && i < j < |events|
    requires events[i] == Stale && events[j] == Stale
    ensures j == |events| - 1 && Ran(setup, Started(setup, place, holdings), events).ending == Some(Aborted)
  {
    var first := Started(setup, place, holdings);
    RanOneMore(setup, first, events, j);
    assert events[..j][i] == Stale;
    RunRestarts(setup, place, holdings, events[..j]);
    TurnRestarts(setup, Ran(setup, first, events[..j]), events[j]);
    if j + 1 < |events| {
      RanOneMore(setup, first, events, j + 1);
    }
    assert events[..|events|] == events;
  }

  lemma {:induction false} TurnRestarts(setup: Setup, run: Run, event: Event)
    requires Happens(setup, run, event)
    ensures
      var turned := Turned(setup, run, event);
      && (turned.restarted <==> run.restarted || event.Stale?)
      && (run.restarted || !event.Stale? ==> turned.start == run.start)
      && (!run.restarted && event.Stale? ==> FromTheFirstPage(turned.start) && turned.place == turned.start)
      && (run.restarted && event.Stale? ==> turned.ending == Some(Aborted))
  {
    if event.Listed? {
      ListedRestartsNot(setup, run, event);
    }
  }

  lemma {:induction false} ListedRestartsNot(setup: Setup, run: Run, event: Event)
    requires event.Listed? && Happens(setup, run, event)
    ensures Turned(setup, run, event).start == run.start && Turned(setup, run, event).restarted == run.restarted
  {
    var (after, result) := PageOutcome(setup, run, event);
    TurnedIsPlaced(setup, run, event, after, result);
    PlacedRestartsNot(setup, Counted(run, after, result), event.page, result);
  }

  lemma PlacedRestartsNot(setup: Setup, run: Run, page: Page, result: PageResult)
    ensures Placed(setup, run, page, result).start == run.start && Placed(setup, run, page, result).restarted == run.restarted
  {
  }

  /** A run that processes nothing never counts a failed attempt, however many records fail. */
  lemma {:induction false} NoProgressNoAttempt(reports: seq<PageResult>)
    requires Processings(reports) == 0
    ensures Failures(UpToProgress(reports)) == []
  {
    if reports != [] {
      NoProgressNoAttempt(reports[..|reports| - 1]);
    }
  }
}
