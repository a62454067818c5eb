/** How the records of a page end, told from what their tasks were answered (pipeline_async.py). */
module TaskHistory {
  import opened ListingHead
  import opened ListingPosition
  import opened PageTasks
  import Pipeline

  /** The `i`-th task's state is what the actions taken so far say of it. */
  ghost predicate Tallies(done: seq<Action>, s: State, i: nat)
    requires i < |s.tasks|
  {
    var task := s.tasks[i];
    && (task == Irrelevant <==> Dismiss(i) in done)
    && (task == Failed <==> Fail(i) in done)
    && (task == Processed <==> Mark(i) in done || Settle(i) in done)
    && (task == Waiting <==> Start(i, true) !in done && Start(i, false) !in done)
    && (Start(i, true) in done ==> task == Deferred)
    && (Judge(i, false) in done ==> task in {Dismissing, Irrelevant, Failed})
    && (Judge(i, true) in done ==> task in {Deferred, Working, Marking, Written, Processed, Failed})
    && (task in {Dismissing, Irrelevant} ==> Judge(i, false) in done)
    && (task in {Working, Marking, Written, Processed} ==> Judge(i, true) in done)
    && (Write(i) in done ==> task in {Marking, Written, Processed, Failed})
    && (task in {Marking, Written, Processed} ==> Write(i) in done)
    && (Mark(i) in done ==> s.durableWrites) && (Settle(i) in done ==> !s.durableWrites)
    && (task == Marking ==> s.durableWrites) && (task == Written ==> !s.durableWrites)
  }

  ghost predicate Concerns(ids: seq<Id>, i: nat, id: Id) {
    i < |ids| && ids[i] == id
  }

  // The sets hold what they held before and what the actions put into them.

  ghost predicate AddsIrrelevant(before: Holdings, done: seq<Action>, s: State, id: Id) {
    id in s.irrelevant <==> id in before.irrelevant || exists i: nat :: Concerns(s.ids, i, id) && Judge(i, false) in done
  }

  ghost predicate AddsMarked(before: Holdings, done: seq<Action>, s: State, id: Id) {
    id in s.marked <==> id in before.marked || exists i: nat :: Concerns(s.ids, i, id) && Settles(done, i)
  }

  ghost predicate Wrote(done: seq<Action>, s: State, id: Id) {
    exists i: nat :: Concerns(s.ids, i, id) && Write(i) in done
  }

  ghost predicate AddsBuffered(before: Holdings, done: seq<Action>, s: State, id: Id) {
    id in s.buffered <==> id in before.buffered || (!s.durableWrites && Wrote(done, s, id))
  }

  ghost predicate AddsDurable(before: Holdings, done: seq<Action>, s: State, id: Id) {
    id in s.durable <==>
    id in before.durable || (s.phase == Flushed && id in s.buffered) || (s.durableWrites && Wrote(done, s, id))
  }

  ghost predicate Adds(before: Holdings, done: seq<Action>, s: State, id: Id) {
    && AddsIrrelevant(before, done, s, id) && AddsMarked(before, done, s, id)
    && AddsBuffered(before, done, s, id) && AddsDurable(before, done, s, id)
  }

  ghost predicate Settles(done: seq<Action>, i: nat) {
    Dismiss(i) in done || Mark(i) in done || Settle(i) in done
  }

  /** The actions taken so far led from what was held before to this state. */
  ghost predicate Recounts(before: Holdings, done: seq<Action>, s: State) {
    && Fits(s)
    && (forall a :: a in done && !a.Flush? ==> a.i < |s.ids|)
    && (s.phase == Gathering <==> Flush(true) !in done && Flush(false) !in done)
    && (s.phase == Flushed <==> Flush(true) in done)
    && (forall i :: 0 <= i < |s.tasks| ==> Tallies(done, s, i))
    && (forall id :: Adds(before, done, s, id))
  }

  lemma OtherTaskStillTallies(done: seq<Action>, s: State, a: Action, next: State, i: nat)
    requires Fits(s) && Can(s, a) && i < |s.tasks| && Tallies(done, s, i) && (a.Flush? || a.i != i)
    requires |next.tasks| == |s.tasks| && next.tasks[i] == s.tasks[i] && next.durableWrites == s.durableWrites
    ensures Tallies(done + [a], next, i)
  {
    Grows(done, a);
  }

  lemma OwnTaskTallies(done: seq<Action>, s: State, a: Action)
    requires Fits(s) && Can(s, a) && !a.Flush? && Tallies(done, s, a.i)
    ensures |Do(s, a).tasks| == |s.tasks| && Tallies(done + [a], Do(s, a), a.i)
  {
    Grows(done, a);
  }

  lemma TaskStillTallies(done: seq<Action>, s: State, a: Action, i: nat)
    requires Fits(s) && Can(s, a) && i < |s.tasks| && Tallies(done, s, i)
    ensures |Do(s, a).tasks| == |s.tasks| && Tallies(done + [a], Do(s, a), i)
  {
    OnlyOneTaskMoves(s, a);
    if !a.Flush? && a.i == i {
      OwnTaskTallies(done, s, a);
    } else {
      OtherTaskStillTallies(done, s, a, Do(s, a), i);
    }
  }

  lemma Grows(done: seq<Action>, a: Action)
    ensures forall b :: b in done + [a] <==> b in done || b == a
  {
  }

  lemma StillAddsIrrelevant(before: Holdings, done: seq<Action>, s: State, a: Action, id: Id)
    requires Fits(s) && Can(s, a) && AddsIrrelevant(before, done, s, id)
    ensures AddsIrrelevant(before, done + [a], Do(s, a), id)
  {
    Grows(done, a);
    assert !a.Flush? ==> Concerns(s.ids, a.i, s.ids[a.i]);
  }

  lemma StillAddsMarked(before: Holdings, done: seq<Action>, s: State, a: Action, id: Id)
    requires Fits(s) && Can(s, a) && AddsMarked(before, done, s, id)
    ensures AddsMarked(before, done + [a], Do(s, a), id)
  {
    Grows(done, a);
    assert forall i: nat :: Settles(done + [a], i) <==> Settles(done, i) || Settles([a], i);
    assert !a.Flush? ==> Concerns(s.ids, a.i, s.ids[a.i]);
  }

  lemma WroteOneMore(done: seq<Action>, s: State, a: Action, id: Id)
    requires Fits(s) && Can(s, a)
    ensures Do(s, a).ids == s.ids
    ensures Wrote(done + [a], Do(s, a), id) <==> Wrote(done, s, id) || (a.Write? && s.ids[a.i] == id)
  {
    Grows(done, a);
    assert !a.Flush? ==> Concerns(s.ids, a.i, s.ids[a.i]);
  }

  lemma StillAddsBuffered(before: Holdings, done: seq<Action>, s: State, a: Action, id: Id)
    requires Fits(s) && Can(s, a) && AddsBuffered(before, done, s, id)
    ensures AddsBuffered(before, done + [a], Do(s, a), id)
  {
    WroteOneMore(done, s, a, id);
  }

  lemma StillAddsDurable(before: Holdings, done: seq<Action>, s: State, a: Action, id: Id)
    requires Fits(s) && Can(s, a) && AddsDurable(before, done, s, id)
    ensures AddsDurable(before, done + [a], Do(s, a), id)
  {
    WroteOneMore(done, s, a, id);
  }

  lemma {:induction false} RecountsOneMore(before: Holdings, done: seq<Action>, s: State, a: Action)
    requires Recounts(before, done, s) && Can(s, a)
    ensures Recounts(before, done + [a], Do(s, a))
  {
    OnlyOneTaskMoves(s, a);
    Grows(done, a);
    forall i | 0 <= i < |s.tasks|
      ensures Tallies(done + [a], Do(s, a), i)
    {
      TaskStillTallies(done, s, a, i);
    }
    forall id
      ensures Adds(before, done + [a], Do(s, a), id)
    {
      assert Adds(before, done, s, id);
      StillAddsIrrelevant(before, done, s, a, id);
      StillAddsMarked(before, done, s, a, id);
      StillAddsBuffered(before, done, s, a, id);
      StillAddsDurable(before, done, s, a, id);
    }
  }

  lemma {:induction false} RecountsOn(before: Holdings, done: seq<Action>, s: State, actions: seq<Action>)
    requires Recounts(before, done, s) && Possible(s, actions)
    ensures Recounts(before, done + actions, After(s, actions))
    decreases |actions|
  {
    if actions == [] {
      assert done + actions == done;
    } else {
      RecountsOneMore(before, done, s, actions[0]);
      RecountsOn(before, done + [actions[0]], Do(s, actions[0]), actions[1..]);
      assert done + actions == done + [actions[0]] + actions[1..];
    }
  }

  /**
   * Under every interleaving a record is dismissed only if it was judged irrelevant, and written, and so processed, only
   * if it was judged relevant; failed if and only if its task met a fault; and never judged once it was told to stop.
   * What is marked, buffered and durable afterwards is what the tasks' own steps put there.
   */
  lemma OutcomesFollowTheAnswers(ids: seq<Id>, permits: nat, durableWrites: bool, budget: nat, before: Holdings, actions: seq<Action>)
    requires Possible(Begun(ids, permits, durableWrites, budget, before), actions)
    ensures Recounts(before, actions, After(Begun(ids, permits, durableWrites, budget, before), actions))
  {
    var s := Begun(ids, permits, durableWrites, budget, before);
    RecountsOn(before, [], s, actions);
    assert [] + actions == actions;
  }

  /** A finished page marked, of its records, exactly those its tasks dismissed or processed. */
  lemma MarkedAreTheSettled(before: Holdings, done: seq<Action>, s: State, id: Id)
    requires Recounts(before, done, s)
    ensures id in s.marked <==> id in before.marked || exists i: nat :: Concerns(s.ids, i, id) && s.tasks[i] in SETTLED
  {
    assert Adds(before, done, s, id);
    assert forall i: nat :: Concerns(s.ids, i, id) ==> Tallies(done, s, i);
  }

  /** With no slot free and none given back by a failure, no record is judged or worked on but those that already were. */
  lemma {:induction false} NoSlotNoWork(s: State, actions: seq<Action>, a: Action)
    requires Fits(s) && Possible(s, actions) && s.free <= 0 && forall b :: b in actions ==> !b.Fail?
    requires a in actions
    ensures a.Judge? ==> a.i < |s.tasks| && s.tasks[a.i] == Judging
    ensures a.Write? ==> a.i < |s.tasks| && s.tasks[a.i] == Working
    decreases |actions|
  {
    OnlyOneTaskMoves(s, actions[0]);
    if a != actions[0] {
      NoSlotNoWork(Do(s, actions[0]), actions[1..], a);
    }
  }

  /** How one record's task ends when nothing runs in between, and that only a record kept holds on to its slot. */
  lemma AloneEndsAsAnswered(s: State, i: nat, answers: Answers)
    requires i < |s.ids|
    ensures
      var (after, task) := Settled(s, i, answers);
      var let := s.free > 0 && !answers.stop;
      && (task == Deferred <==> !let)
      && (task == Irrelevant <==> let && answers.relevance == Some(false) && answers.marked)
      && (task == Written <==> let && answers.relevance == Some(true) && answers.written && !s.durableWrites)
      && (task == Processed <==> let && answers.relevance == Some(true) && answers.written && answers.marked && s.durableWrites)
      && task in {Deferred, Irrelevant, Written, Processed, Failed}
      && after.free == s.free - (if task in {Written, Processed} then 1 else 0)
      && after.marked == s.marked + (if task in {Irrelevant, Processed} then {s.ids[i]} else {})
  {
  }

  // ----- What the run is left with after a page

  lemma {:induction false} RecountsSettling(before: Holdings, done: seq<Action>, s: State, i: nat) returns (all: seq<Action>)
    requires Recounts(before, done, s) && s.phase == Flushed && i <= |s.tasks|
    ensures Recounts(before, all, Pipeline.SettledFrom(s, i))
    ensures done <= all && forall k :: |done| <= k < |all| ==> all[k].Settle?
    decreases |s.tasks| - i
  {
    all := done;
    if i < |s.tasks| {
      if s.tasks[i] == Written {
        RecountsOneMore(before, done, s, Settle(i));
        all := RecountsSettling(before, done + [Settle(i)], Do(s, Settle(i)), i + 1);
      } else {
        all := RecountsSettling(before, done, s, i + 1);
      }
    }
  }

  /** The records a page began with are its tasks, and nothing has been said of them. */
  lemma PageBeginsToldNothing(setup: Pipeline.Setup, run: Pipeline.Run, page: Page)
    requires run.total <= setup.totalLimit
    ensures Recounts(run.holdings, [], Pipeline.PageBegun(setup, run, page))
  {
  }

  /** What a page leaves, and what it reports, is what its tasks, its flush and the marks behind the flush say. */
  lemma PageLeavesWhatItsTasksSay(setup: Pipeline.Setup, run: Pipeline.Run, event: Pipeline.Event)
    returns (done: seq<Action>, s: State)
    requires event.Listed? && event.page.entries > 0 && Pipeline.Happens(setup, run, event)
    ensures Recounts(run.holdings, done, s) && s.ids == Pipeline.Candidates(setup, run.holdings.marked, event.page.ids)
    ensures Pipeline.PageOutcome(setup, run, event) == (Held(s), Reported(s))
    ensures event.gathering + [Flush(event.flushOk)] <= done
    ensures forall k :: |event.gathering| < k < |done| ==> done[k].Settle?
  {
    var begun := Pipeline.PageBegun(setup, run, event.page);
    PageBeginsToldNothing(setup, run, event.page);
    RecountsOn(run.holdings, [], begun, event.gathering);
    assert [] + event.gathering == event.gathering;
    var gathered := After(begun, event.gathering);
    done, s := event.gathering + [Flush(event.flushOk)], Do(gathered, Flush(event.flushOk));
    RecountsOneMore(run.holdings, event.gathering, gathered, Flush(event.flushOk));
    if event.flushOk {
      done := RecountsSettling(run.holdings, done, s, 0);
      s := Pipeline.FlushedPage(gathered, true);
    }
  }

  /** A run cut short in the middle of a page is left with what the page's tasks did until then. */
  lemma CutLeavesWhatTheTasksSay(setup: Pipeline.Setup, run: Pipeline.Run, page: Page, actions: seq<Action>) returns (s: State)
    requires Pipeline.Happens(setup, run, Pipeline.Crash(page, actions))
    ensures Recounts(run.holdings, actions, s) && s.ids == Pipeline.Candidates(setup, run.holdings.marked, page.ids)
    ensures Pipeline.Turned(setup, run, Pipeline.Crash(page, actions)).holdings == Held(s)
  {
    PageBeginsToldNothing(setup, run, page);
    s := After(Pipeline.PageBegun(setup, run, page), actions);
    RecountsOn(run.holdings, [], Pipeline.PageBegun(setup, run, page), actions);
    assert [] + actions == actions;
  }
}
