/** Newest-first runs of the pipeline: the pages its tasks process and the metadata it keeps (pipeline_async.py,
    _listing_position.py). */
module NewestFirstPages {
  import opened ListingHead
  import opened ListingPosition
  import ListingSafety
  import ListingRuns
  import PageTasks
  import Pipeline

  /**
   * What the run in progress was asked for, the records any run so far held quarantined, the listing and its metadata,
   * what the records left behind, and how many this run processed.
   */
  datatype State = State(
    setup: Pipeline.Setup, quarantined: set<Id>, world: ListingRuns.World, holdings: PageTasks.Holdings, total: nat)

  /**
   * A run that begins with its own limit and its own quarantine, a page whose tasks were gathered and flushed, a page
   * cut short, or something that happens between pages.
   */
  datatype Event =
    | Begin(setup: Pipeline.Setup, fresher: seq<Id>, pageSize: nat)
    | Paged(page: Page, gathering: seq<PageTasks.Action>, flushOk: bool)
    | CutIn(page: Page, actions: seq<PageTasks.Action>)
    | Between(action: ListingRuns.Action)

  predicate IsBetween(action: ListingRuns.Action) {
    action.Reject? || action.Save? || action.Cut?
  }

  /** Every entry has an id to track it by. */
  ghost predicate AllTrackable(setup: Pipeline.Setup) {
    forall id :: setup.trackable(id)
  }

  /** The page is what the listing shows where the run stands. */
  ghost predicate Shows(w: ListingRuns.World, page: Page) {
    w.course.Going? && |page.ids| == page.entries && ListingSafety.Stands(w.listing, w.course.offset, page.ids)
  }

  ghost predicate Happens(st: State, e: Event) {
    match e
    case Begin(setup, fresher, pageSize) =>
      AllTrackable(setup) && ListingRuns.Can(st.world, ListingRuns.Start(fresher, pageSize))
    case Paged(page, gathering, flushOk) =>
      && st.total < st.setup.totalLimit && Shows(st.world, page)
      && (page.entries > 0 ==>
            var s := Pipeline.PageOf(st.setup, st.holdings, st.total, page);
            PageTasks.Possible(s, gathering) && PageTasks.Can(PageTasks.After(s, gathering), PageTasks.Flush(flushOk)))
    case CutIn(page, actions) =>
      && st.total < st.setup.totalLimit && Shows(st.world, page)
      && PageTasks.Possible(Pipeline.PageOf(st.setup, st.holdings, st.total, page), actions)
    case Between(action) => IsBetween(action) && ListingRuns.Can(st.world, action)
  }

  /** What the page left and reported; an empty page processes nothing. */
  function Outcome(st: State, e: Event): (PageTasks.Holdings, PageTasks.PageResult)
    requires e.Paged? && st.total <= st.setup.totalLimit
    requires e.page.entries > 0 ==>
               var s := Pipeline.PageOf(st.setup, st.holdings, st.total, e.page);
               PageTasks.Possible(s, e.gathering) && PageTasks.Can(PageTasks.After(s, e.gathering), PageTasks.Flush(e.flushOk))
  {
    if e.page.entries == 0 then (st.holdings, PageTasks.PageResult(0, 0, 0, [], false))
    else
      var s := Pipeline.PageOf(st.setup, st.holdings, st.total, e.page);
      var after := Pipeline.FlushedPage(PageTasks.After(s, e.gathering), e.flushOk);
      (PageTasks.Held(after), PageTasks.Reported(after))
  }

  /** How the position accounts for a page: at the source's cap it gives up its place. */
  function Turn(page: Page, complete: bool, more: set<Id>): ListingRuns.Action {
    if page.truncated then ListingRuns.Cap(more) else ListingRuns.Turn(page, complete, more)
  }

  function Do(st: State, e: Event): State
    requires st.total <= st.setup.totalLimit
    requires e.Paged? && e.page.entries > 0 ==>
               var s := Pipeline.PageOf(st.setup, st.holdings, st.total, e.page);
               PageTasks.Possible(s, e.gathering) && PageTasks.Can(PageTasks.After(s, e.gathering), PageTasks.Flush(e.flushOk))
    requires e.CutIn? ==> PageTasks.Possible(Pipeline.PageOf(st.setup, st.holdings, st.total, e.page), e.actions)
  {
    match e
    case Begin(setup, fresher, pageSize) =>
      var settled := ListingRuns.Do(st.world, ListingRuns.Settle(setup.quarantined));
      var begun := ListingRuns.Do(settled, ListingRuns.Start(fresher, pageSize));
      State(setup, st.quarantined + setup.quarantined, begun, st.holdings, 0)
    case Paged(page, gathering, flushOk) =>
      var (after, result) := Outcome(st, e);
      var turned := ListingRuns.Do(st.world, Turn(page, result.Complete(), after.marked));
      st.(world := turned, holdings := after, total := st.total + result.processed)
    case CutIn(page, actions) =>
      var after := PageTasks.Held(PageTasks.After(Pipeline.PageOf(st.setup, st.holdings, st.total, page), actions));
      var cut := ListingRuns.Do(ListingRuns.Do(st.world, ListingRuns.Settle(after.marked)), ListingRuns.Cut);
      st.(world := cut, holdings := after)
    case Between(action) => st.(world := ListingRuns.Do(st.world, action))
  }

  /** The metadata is true of the listing, of which exactly the records processed or ever quarantined count as settled;
      what was processed was irrelevant or is durable; and the run keeps within its limit. */
  ghost predicate Kept(st: State, before: set<Id>) {
    && ListingRuns.Sound(st.world) && st.world.settled == st.holdings.marked + st.quarantined
    && AllTrackable(st.setup) && st.setup.quarantined <= st.quarantined
    && st.holdings.marked <= before + st.holdings.irrelevant + st.holdings.durable
    && st.total <= st.setup.totalLimit
  }

  /** A page, as the pipeline runs its tasks, keeps its budget and marks settled records only; its report is complete only
      if all its records are processed or quarantined. */
  lemma PageIsKept(st: State, e: Event, before: set<Id>)
    requires e.Paged? && Happens(st, e) && AllTrackable(st.setup)
    requires st.holdings.marked <= before + st.holdings.irrelevant + st.holdings.durable
    ensures
      var (after, result) := Outcome(st, e);
      && st.total + result.processed <= st.setup.totalLimit && st.holdings.marked <= after.marked
      && after.marked <= before + after.irrelevant + after.durable
      && (result.Complete() ==> forall id :: id in e.page.ids ==> id in after.marked + st.setup.quarantined)
  {
    if e.page.entries > 0 {
      var place := Place(Saved(NoCursor, false, [], 0, []), false, true, NoCursor);
      var run := Pipeline.Run(place, place.saved, st.holdings, st.total, 0, [], [], false, None, place, [], []);
      Pipeline.PageIsKept(st.setup, run, Pipeline.Listed(e.page, e.gathering, e.flushOk), before);
    }
  }

  /** What the tasks report lets the listing turn the page. */
  lemma PageTurns(st: State, e: Event, before: set<Id>)
    requires e.Paged? && Happens(st, e) && Kept(st, before)
    ensures
      var (after, result) := Outcome(st, e);
      ListingRuns.Can(st.world, Turn(e.page, result.Complete(), after.marked))
  {
    PageIsKept(st, e, before);
    var (after, result) := Outcome(st, e);
    var settled := st.world.settled;
    assert settled + after.marked == after.marked + st.quarantined;
  }

  /** A page of the run is processed as the pipeline processes it, and turned as the position turns it; at the source's cap
      the run gives up its place. */
  lemma PageIsProcessedAndTurned(st: State, e: Event, run: Pipeline.Run)
    requires e.Paged? && Happens(st, e) && run.holdings == st.holdings && run.total == st.total && run.ending == None
    ensures Pipeline.Happens(st.setup, run, Pipeline.Listed(e.page, e.gathering, e.flushOk))
    ensures
      var (after, result) := Pipeline.PageOutcome(st.setup, run, Pipeline.Listed(e.page, e.gathering, e.flushOk));
      var (done, course) := (Do(st, e), st.world.course);
      var (head, offset, more) := Advanced(course.head, course.offset, e.page, result.Complete());
      && done.holdings == after && done.total == st.total + result.processed && done.world.listing == st.world.listing
      && done.world.settled == st.world.settled + after.marked && done.world.kept == st.world.kept
      && done.world.course == if e.page.truncated then ListingRuns.Over(Truncated(course.head.saved))
                              else if more then ListingRuns.Going(head, offset)
                              else ListingRuns.Over(head.saved)
  {
  }

  lemma PagedIsKept(st: State, e: Event, before: set<Id>)
    requires e.Paged? && Happens(st, e) && Kept(st, before)
    ensures Kept(Do(st, e), before)
  {
    PageIsKept(st, e, before);
    PageTurns(st, e, before);
    var (after, result) := Outcome(st, e);
    var action := Turn(e.page, result.Complete(), after.marked);
    ListingRuns.ActionIsSound(st.world, action);
    assert ListingRuns.Do(st.world, action).settled == st.world.settled + after.marked;
  }

  lemma CutIsKept(st: State, e: Event, before: set<Id>)
    requires e.CutIn? && Happens(st, e) && Kept(st, before)
    ensures Kept(Do(st, e), before)
  {
    var s := Pipeline.PageOf(st.setup, st.holdings, st.total, e.page);
    PageTasks.BegunIsSound(s.ids, st.setup.permits, st.setup.durableWrites, st.setup.totalLimit - st.total, st.holdings, before);
    PageTasks.ActionsAreSound(s, e.actions, before);
    var after := PageTasks.Held(PageTasks.After(s, e.actions));
    var settle := ListingRuns.Settle(after.marked);
    ListingRuns.ActionIsSound(st.world, settle);
    ListingRuns.ActionIsSound(ListingRuns.Do(st.world, settle), ListingRuns.Cut);
    assert st.world.settled + after.marked == after.marked + st.quarantined;
  }

  lemma BegunIsKept(st: State, e: Event, before: set<Id>)
    requires e.Begin? && Happens(st, e) && Kept(st, before)
    ensures Kept(Do(st, e), before)
  {
    var settle := ListingRuns.Settle(e.setup.quarantined);
    var settled := ListingRuns.Do(st.world, settle);
    ListingRuns.ActionIsSound(st.world, settle);
    ListingRuns.ActionIsSound(settled, ListingRuns.Start(e.fresher, e.pageSize));
    assert settled.settled == st.holdings.marked + (st.quarantined + e.setup.quarantined);
  }

  lemma EventIsKept(st: State, e: Event, before: set<Id>)
    requires Happens(st, e) && Kept(st, before)
    ensures Kept(Do(st, e), before)
  {
    match e
    case Begin(_, _, _) => BegunIsKept(st, e, before);
    case Paged(_, _, _) => PagedIsKept(st, e, before);
    case CutIn(_, _) => CutIsKept(st, e, before);
    case Between(action) => ListingRuns.ActionIsSound(st.world, action);
  }

  ghost predicate Possible(st: State, events: seq<Event>)
    decreases |events|
  {
    events == []
    || (st.total <= st.setup.totalLimit && Happens(st, events[0])
        && Possible(Do(st, events[0]), events[1..]))
  }

  ghost function After(st: State, events: seq<Event>): State
    requires Possible(st, events)
    decreases |events|
  {
    if events == [] then st else After(Do(st, events[0]), events[1..])
  }

  lemma {:induction false} EventsAreKept(st: State, events: seq<Event>, before: set<Id>)
    requires Kept(st, before) && Possible(st, events)
    ensures Kept(After(st, events), before)
    decreases |events|
  {
    if events != [] {
      EventIsKept(st, events[0], before);
      EventsAreKept(Do(st, events[0]), events[1..], before);
    }
  }

  /** The records some run held quarantined when it began. */
  function QuarantinedIn(events: seq<Event>): set<Id> {
    if events == [] then {}
    else (if events[0].Begin? then events[0].setup.quarantined else {}) + QuarantinedIn(events[1..])
  }

  lemma {:induction false} QuarantineGrows(st: State, events: seq<Event>)
    requires Possible(st, events)
    ensures After(st, events).quarantined == st.quarantined + QuarantinedIn(events)
    decreases |events|
  {
    if events != [] {
      QuarantineGrows(Do(st, events[0]), events[1..]);
    }
  }

  /** Between the saved ids, wherever they now stand, and the saved cursor, the listing has the record. */
  ghost predicate Skipped(kept: Saved, listing: seq<Id>, s: nat, p: nat) {
    s + kept.headOffset + |kept.headIds| <= p < s + DecimalOffset(kept.cursor) && p < |listing|
  }

  /** Before the first run. */
  function Initially(world: ListingRuns.World, holdings: PageTasks.Holdings): State {
    State(Pipeline.Setup(0, 0, true, {}, _ => true), {}, world, holdings, 0)
  }

  /**
   * Over any newest-first runs, each with its own limit and quarantine and cut anywhere, even within a page's tasks:
   * what the metadata on disk lets the next run skip was quarantined in one of them, or processed before, or judged
   * irrelevant, or is durable.
   */
  lemma SkippedIsSettled(world: ListingRuns.World, holdings: PageTasks.Holdings, events: seq<Event>) returns (s: nat)
    requires ListingRuns.Begins(world) && world.settled == holdings.marked && Possible(Initially(world, holdings), events)
    ensures
      var end := After(Initially(world, holdings), events);
      end.world.kept.headIds != [] ==>
        && ListingSafety.Stands(end.world.listing, s + end.world.kept.headOffset, end.world.kept.headIds)
        && forall p: nat :: Skipped(end.world.kept, end.world.listing, s, p) ==>
             end.world.listing[p] in
               end.quarantined + holdings.marked + end.holdings.irrelevant + end.holdings.durable
    ensures
      var end := After(Initially(world, holdings), events);
      end.quarantined == QuarantinedIn(events) && end.total <= end.setup.totalLimit
  {
    var st := Initially(world, holdings);
    EventsAreKept(st, events, holdings.marked);
    QuarantineGrows(st, events);
    var end := After(st, events);
    s := 0;
    if end.world.kept.headIds != [] {
      s :| ListingSafety.Describes(end.world.kept, end.world.listing, end.world.settled, s);
    }
  }
}
