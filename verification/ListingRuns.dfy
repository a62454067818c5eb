/** Any sequence of newest-first runs over a growing listing, each cut short anywhere. */
module ListingRuns {
  import opened ListingHead
  import opened ListingPosition
  import opened ListingSafety
  import ListingProgress

  /** What the run in progress has in memory: nothing, a position, or the metadata left after its last page. */
  datatype Course = Idle | Going(head: Head, offset: nat) | Over(saved: Saved)

  /** The listing, the settled records, the metadata on disk, and the run in progress. */
  datatype World = World(listing: seq<Id>, settled: set<Id>, kept: Saved, course: Course)

  datatype Action =
    | Start(fresher: seq<Id>, pageSize: nat)
    | Settle(more: set<Id>)
    | Turn(page: Page, complete: bool, more: set<Id>)
    | Cap(more: set<Id>)
    | Reject
    | Save
    | Cut

  /** When the action can happen: entries are only put on top, and only between runs; a page lists what is there. */
  ghost predicate Can(w: World, a: Action) {
    match a
    case Start(fresher, _) => w.course.Idle? && Unique(fresher + w.listing)
    case Settle(more) => true
    case Turn(page, complete, more) =>
      w.course.Going? && Fetched(w.listing, w.course.offset, page, w.settled, w.settled + more, complete)
    case Cap(_) => w.course.Going?
    case Reject => w.course.Going?
    case Save => !w.course.Idle?
    case Cut => true
  }

  function Do(w: World, a: Action): World {
    match a
    case Start(fresher, pageSize) => World(fresher + w.listing, w.settled, w.kept, Going(Begin(w.kept, pageSize), 0))
    case Settle(more) => w.(settled := w.settled + more)
    case Turn(page, complete, more) =>
      if !w.course.Going? then w
      else
        var (head, offset, goesOn) := Advanced(w.course.head, w.course.offset, page, complete);
        w.(settled := w.settled + more, course := if goesOn then Going(head, offset) else Over(head.saved))
    case Cap(more) =>
      if !w.course.Going? then w
      else w.(settled := w.settled + more, course := Over(Truncated(w.course.head.saved)))
    case Reject =>
      if !w.course.Going? then w
      else w.(course := Going(Begin(Cleared(w.course.head.saved), w.course.head.pageSize), 0))
    case Save =>
      (match w.course
       case Idle => w
       case Going(head, _) => w.(kept := head.saved)
       case Over(saved) => w.(kept := saved))
    case Cut => w.(course := Idle)
  }

  function After(w: World, actions: seq<Action>): World {
    if actions == [] then w else Do(After(w, actions[..|actions| - 1]), actions[|actions| - 1])
  }

  ghost predicate Possible(w: World, actions: seq<Action>) {
    actions == []
    || (Possible(w, actions[..|actions| - 1]) && Can(After(w, actions[..|actions| - 1]), actions[|actions| - 1]))
  }

  /** No run is going on, and no newest-first run has saved anything. */
  ghost predicate Begins(w: World) {
    w.course.Idle? && w.kept.headIds == []
  }

  ghost predicate Sound(w: World) {
    && SafeFor(w.kept, w.listing, w.settled)
    && match w.course
       case Idle => true
       case Going(head, offset) =>
         && Unique(w.listing)
         && exists s: nat :: Running(head, w.listing, w.settled, s, offset)
       case Over(saved) => SafeFor(saved, w.listing, w.settled)
  }

  lemma SettlingIsSound(w: World, more: set<Id>)
    requires Sound(w)
    ensures Sound(w.(settled := w.settled + more))
  {
    var settled := w.settled + more;
    assert [] + w.listing == w.listing;
    SafeForGrows(w.kept, w.listing, w.settled, [], settled);
    match w.course
    case Idle =>
    case Going(head, offset) =>
      var s: nat :| Running(head, w.listing, w.settled, s, offset);
      RunningGrows(head, w.listing, w.settled, s, offset, settled);
    case Over(saved) =>
      SafeForGrows(saved, w.listing, w.settled, [], settled);
  }

  lemma StartIsSound(w: World, fresher: seq<Id>, pageSize: nat)
    requires Sound(w) && Can(w, Start(fresher, pageSize))
    ensures Sound(Do(w, Start(fresher, pageSize)))
  {
    SafeForGrows(w.kept, w.listing, w.settled, fresher, w.settled);
    var s := BeginIsRunning(w.kept, pageSize, fresher + w.listing, w.settled);
  }

  lemma TurnIsSound(w: World, page: Page, complete: bool, more: set<Id>)
    requires Sound(w) && Can(w, Turn(page, complete, more))
    ensures Sound(Do(w, Turn(page, complete, more)))
  {
    var (head, offset, settled) := (w.course.head, w.course.offset, w.settled + more);
    var s: nat :| Running(head, w.listing, w.settled, s, offset);
    var step := Advanced(head, offset, page, complete);
    AdvanceKeeps(head, w.listing, w.settled, s, offset, page, settled, complete, step);
    assert step.2 ==> Running(step.0, w.listing, settled, s, step.1);
    SettlingIsSound(w, more);
  }

  lemma CapIsSafe(saved: Saved, listing: seq<Id>, settled: set<Id>)
    requires SafeFor(saved, listing, settled)
    ensures SafeFor(Truncated(saved), listing, settled)
  {
    if saved.headIds != [] {
      var s: nat :| Describes(saved, listing, settled, s);
      assert Describes(Truncated(saved), listing, settled, s);
    }
  }

  lemma CapIsSound(w: World, more: set<Id>)
    requires Sound(w) && w.course.Going?
    ensures Sound(Do(w, Cap(more)))
  {
    SettlingIsSound(w, more);
    var settled := w.settled + more;
    var s: nat :| Running(w.course.head, w.listing, settled, s, w.course.offset);
    RunningIsSafe(w.course.head, w.listing, settled, s, w.course.offset);
    CapIsSafe(w.course.head.saved, w.listing, settled);
  }

  lemma RejectIsSound(w: World)
    requires Sound(w) && w.course.Going?
    ensures Sound(Do(w, Reject))
  {
    var s := BeginIsRunning(Cleared(w.course.head.saved), w.course.head.pageSize, w.listing, w.settled);
  }

  lemma SaveIsSound(w: World)
    requires Sound(w)
    ensures Sound(Do(w, Save))
  {
    match w.course
    case Idle =>
    case Going(head, offset) =>
      var s: nat :| Running(head, w.listing, w.settled, s, offset);
      RunningIsSafe(head, w.listing, w.settled, s, offset);
    case Over(_) =>
  }

  lemma ActionIsSound(w: World, a: Action)
    requires Sound(w) && Can(w, a)
    ensures Sound(Do(w, a))
  {
    match a
    case Start(fresher, pageSize) => StartIsSound(w, fresher, pageSize);
    case Settle(more) => SettlingIsSound(w, more);
    case Turn(page, complete, more) => TurnIsSound(w, page, complete, more);
    case Cap(more) => CapIsSound(w, more);
    case Reject => RejectIsSound(w);
    case Save => SaveIsSound(w);
    case Cut =>
  }

  /** Whatever happened, and wherever the last run was cut, the metadata on disk is true of the listing. */
  lemma {:induction false} HistoryIsSound(w: World, actions: seq<Action>)
    requires Begins(w) && Possible(w, actions)
    ensures Sound(After(w, actions))
  {
    if actions != [] {
      HistoryIsSound(w, actions[..|actions| - 1]);
      ActionIsSound(After(w, actions[..|actions| - 1]), actions[|actions| - 1]);
    }
  }

  /** The actions turn the pages one after another. */
  ghost predicate Turns(actions: seq<Action>, visits: seq<Visit>) {
    |actions| == |visits|
    && forall i :: 0 <= i < |visits| ==>
         actions[i].Turn? && actions[i].page == visits[i].page && actions[i].complete == visits[i].complete
  }

  /** Since `w` was started on, the run has come to where the position stands after its pages. */
  ghost predicate Follows(now: World, w: World, listing: seq<Id>, run: (Head, nat, bool)) {
    && now.listing == listing && now.kept == w.kept
    && now.course == if run.2 then Going(run.0, run.1) else Over(run.0.saved)
  }

  lemma {:induction false} TurnFollows(now: World, w: World, listing: seq<Id>, turn: Action, run: (Head, nat, bool), step: (Head, nat, bool))
    requires Follows(now, w, listing, run) && run.2 && turn.Turn? && step == Advanced(run.0, run.1, turn.page, turn.complete)
    ensures Follows(Do(now, turn), w, listing, step)
  {
  }

  lemma {:induction false} FollowedIsSaved(now: World, w: World, listing: seq<Id>, run: (Head, nat, bool))
    requires Follows(now, w, listing, run)
    ensures Do(now, Save) == now.(kept := run.0.saved) && Do(now, Cut) == now.(course := Idle)
  {
  }

  /** A run over some pages in this world is a run of the position over them, and what is saved of it is what it holds. */
  lemma {:induction false} RunIsFollowed(w: World, fresher: seq<Id>, pageSize: nat, visits: seq<Visit>, turns: seq<Action>)
    requires Turns(turns, visits) && (visits != [] ==> ListingProgress.Paged(Begin(w.kept, pageSize), 0, visits[..|visits| - 1]).2)
    ensures
      var now := After(Do(w, Start(fresher, pageSize)), turns);
      var run := ListingProgress.Paged(Begin(w.kept, pageSize), 0, visits);
      && Follows(now, w, fresher + w.listing, run)
      && Do(now, Save) == now.(kept := run.0.saved) && Do(now, Cut) == now.(course := Idle)
  {
    var begun := Do(w, Start(fresher, pageSize));
    var run := ListingProgress.Paged(Begin(w.kept, pageSize), 0, visits);
    if visits != [] {
      var last := |visits| - 1;
      PagedBefore(w, pageSize, visits, last);
      RunIsFollowed(w, fresher, pageSize, visits[..last], turns[..last]);
      TurnFollows(After(begun, turns[..last]), w, fresher + w.listing, turns[last],
                  ListingProgress.Paged(Begin(w.kept, pageSize), 0, visits[..last]), run);
    }
    FollowedIsSaved(After(begun, turns), w, fresher + w.listing, run);
  }

  lemma {:induction false} PagedBefore(w: World, pageSize: nat, visits: seq<Visit>, last: nat)
    requires last + 1 == |visits| && ListingProgress.Paged(Begin(w.kept, pageSize), 0, visits[..last]).2
    ensures last > 0 ==> ListingProgress.Paged(Begin(w.kept, pageSize), 0, visits[..last][..last - 1]).2
  {
  }

  /** The run is at the end of its listing, and stops there. */
  ghost predicate EndsThere(listing: seq<Id>, p: Point) {
    EndsTruly(listing, p) && !Advanced(p.head, p.offset, p.page, p.complete).2
  }

  /**
   * After any history, a run leaves no entry behind that it did not list and that was not settled, stops, and goes
   * back at most once. When it stops at the end of the listing, it has listed every entry that was not settled.
   */
  lemma NextRunIsRight(w: World, actions: seq<Action>, fresher: seq<Id>, pageSize: nat, run: seq<Point>)
    requires Begins(w) && Possible(w, actions) && Can(After(w, actions), Start(fresher, pageSize))
    requires
      var now := After(w, actions);
      && run != [] && run[0].head == Begin(now.kept, pageSize) && run[0].offset == 0 && run[0].settled == now.settled
      && forall i :: 0 < i < |run| ==> FollowsAt(fresher + now.listing, run, i)
    ensures
      var listing := fresher + After(w, actions).listing;
      var last := |run| - 1;
      && |run| <= 3 * |listing| + 3
      && (forall entry: nat :: entry < run[last].offset ==> Known(listing, run, last, entry))
      && (forall i, j :: 0 < i < |run| && 0 < j < |run| && JumpsBack(run, i) && JumpsBack(run, j) ==> i == j)
      && (EndsThere(listing, run[last]) ==>
            forall entry: nat :: entry < |listing| ==> listing[entry] in run[last].settled || Listed(run, |run|, entry))
  {
    var now := After(w, actions);
    var listing := fresher + now.listing;
    HistoryIsSound(w, actions);
    SafeForGrows(now.kept, now.listing, now.settled, fresher, now.settled);
    assert IsRun(listing, run, now.kept, pageSize);
    RunStops(listing, run, now.kept, pageSize);
    var last := |run| - 1;
    forall entry: nat | entry < run[last].offset
      ensures Known(listing, run, last, entry)
    {
      RunSkipsNothing(listing, run, now.kept, pageSize, last, entry);
    }
    if EndsThere(listing, run[last]) {
      forall entry: nat | entry < |listing|
        ensures listing[entry] in run[last].settled || Listed(run, |run|, entry)
      {
        EndedRunIsWhole(listing, run, now.kept, pageSize, entry);
      }
    }
    forall i, j | 0 < i < |run| && 0 < j < |run| && JumpsBack(run, i) && JumpsBack(run, j)
      ensures i == j
    {
      RunJumpsBackOnce(listing, run, now.kept, pageSize, i, j);
    }
  }
}
