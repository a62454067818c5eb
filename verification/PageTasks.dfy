/** The records of one page, run concurrently under a shared budget (pipeline_async.py). */
module PageTasks {
  import opened ListingHead

  /** How far one record's task has come, and how it ended. */
  datatype Task =
    | Waiting | Judging | Dismissing | Working | Marking
    | Irrelevant | Deferred | Failed | Written | Processed

  datatype Phase = Gathering | Flushed | FlushFailed

  /**
   * A page in progress: its trackable records' tasks, the slots still free, and what the rest of the world holds:
   * the ids marked processed, those judged irrelevant, those written to the sink's buffer, and those durable in it.
   */
  datatype State = State(
    ids: seq<Id>, permits: nat, durableWrites: bool, budget: nat, free: int, tasks: seq<Task>, phase: Phase,
    marked: set<Id>, irrelevant: set<Id>, buffered: set<Id>, durable: set<Id>)

  /** What outlives a page: see `State`. */
  datatype Holdings = Holdings(marked: set<Id>, irrelevant: set<Id>, buffered: set<Id>, durable: set<Id>)

  datatype Action =
    | Start(i: nat, stop: bool)
    | Judge(i: nat, relevant: bool)
    | Dismiss(i: nat)
    | Write(i: nat)
    | Mark(i: nat)
    | Fail(i: nat)
    | Flush(ok: bool)
    | Settle(i: nat)

  const RUNNING: set<Task> := {Judging, Dismissing, Working, Marking}
  const UNFINISHED: set<Task> := {Waiting, Judging, Dismissing, Working, Marking}
  const HOLDING: set<Task> := {Working, Marking, Written, Processed}
  const SETTLED: set<Task> := {Irrelevant, Processed}

  function Count(tasks: seq<Task>, kinds: set<Task>): nat {
    if tasks == [] then 0 else (if tasks[0] in kinds then 1 else 0) + Count(tasks[1..], kinds)
  }

  function Held(s: State): Holdings {
    Holdings(s.marked, s.irrelevant, s.buffered, s.durable)
  }

  function Begun(ids: seq<Id>, permits: nat, durableWrites: bool, budget: nat, before: Holdings): State {
    State(ids, permits, durableWrites, budget, budget, seq(|ids|, _ => Waiting), Gathering,
          before.marked, before.irrelevant, before.buffered, before.durable)
  }

  predicate Gathered(s: State) {
    forall i :: 0 <= i < |s.tasks| ==> s.tasks[i] !in UNFINISHED
  }

  predicate Can(s: State, a: Action) {
    match a
    case Flush(_) => s.phase == Gathering && Gathered(s)
    case Settle(i) => s.phase == Flushed && i < |s.tasks| && s.tasks[i] == Written
    case Start(i, _) =>
      s.phase == Gathering && i < |s.tasks| && s.tasks[i] == Waiting && Count(s.tasks, RUNNING) < s.permits
    case Judge(i, _) => s.phase == Gathering && i < |s.tasks| && s.tasks[i] == Judging
    case Dismiss(i) => s.phase == Gathering && i < |s.tasks| && s.tasks[i] == Dismissing
    case Write(i) => s.phase == Gathering && i < |s.tasks| && s.tasks[i] == Working
    case Mark(i) => s.phase == Gathering && i < |s.tasks| && s.tasks[i] == Marking
    case Fail(i) => s.phase == Gathering && i < |s.tasks| && s.tasks[i] in RUNNING
  }

  predicate Fits(s: State) {
    |s.tasks| == |s.ids|
  }

  function Do(s: State, a: Action): State
    requires Fits(s) && Can(s, a)
  {
    match a
    case Start(i, stop) =>
      if s.free <= 0 || stop then s.(tasks := s.tasks[i := Deferred]) else s.(tasks := s.tasks[i := Judging])
    case Judge(i, relevant) =>
      if !relevant then s.(tasks := s.tasks[i := Dismissing], irrelevant := s.irrelevant + {s.ids[i]})
      else if s.free <= 0 then s.(tasks := s.tasks[i := Deferred])
      else s.(tasks := s.tasks[i := Working], free := s.free - 1)
    case Dismiss(i) => s.(tasks := s.tasks[i := Irrelevant], marked := s.marked + {s.ids[i]})
    case Write(i) =>
      if s.durableWrites then s.(tasks := s.tasks[i := Marking], durable := s.durable + {s.ids[i]})
      else s.(tasks := s.tasks[i := Written], buffered := s.buffered + {s.ids[i]})
    case Mark(i) => s.(tasks := s.tasks[i := Processed], marked := s.marked + {s.ids[i]})
    case Fail(i) =>
      s.(tasks := s.tasks[i := Failed], free := if s.tasks[i] in HOLDING then s.free + 1 else s.free)
    case Flush(ok) => if ok then s.(phase := Flushed, durable := s.durable + s.buffered) else s.(phase := FlushFailed)
    case Settle(i) => s.(tasks := s.tasks[i := Processed], marked := s.marked + {s.ids[i]})
  }

  // ----- What every step keeps

  lemma {:induction false} CountAfter(tasks: seq<Task>, i: nat, t: Task, kinds: set<Task>)
    requires i < |tasks|
    ensures Count(tasks[i := t], kinds)
            == Count(tasks, kinds) - (if tasks[i] in kinds then 1 else 0) + (if t in kinds then 1 else 0)
  {
    if i == 0 {
      assert tasks[0 := t][1..] == tasks[1..];
    } else {
      assert tasks[i := t][1..] == tasks[1..][i - 1 := t];
      CountAfter(tasks[1..], i - 1, t, kinds);
    }
  }

  /** Free slots and relevant records under way, written or processed make up the budget; permits are respected. */
  ghost predicate Conserved(s: State) {
    && 0 <= s.free && s.free + Count(s.tasks, HOLDING) == s.budget
    && Count(s.tasks, RUNNING) <= s.permits
  }

  ghost predicate Tells(s: State, i: nat)
    requires Fits(s) && i < |s.tasks|
  {
    match s.tasks[i]
    case Dismissing => s.ids[i] in s.irrelevant
    case Marking => s.ids[i] in s.durable
    case Written => s.ids[i] in s.buffered && (s.phase == Flushed ==> s.ids[i] in s.durable)
    case Irrelevant => s.ids[i] in s.marked && s.ids[i] in s.irrelevant
    case Processed => s.ids[i] in s.marked && s.ids[i] in s.durable
    case _ => true
  }

  /** Only ids judged irrelevant, or whose entities are durable, were marked processed. */
  ghost predicate MarkedIsSettled(s: State, before: set<Id>) {
    s.marked <= before + s.irrelevant + s.durable
  }

  ghost predicate Sound(s: State, before: set<Id>) {
    && Fits(s) && Conserved(s) && MarkedIsSettled(s, before)
    && (forall i :: 0 <= i < |s.tasks| ==> Tells(s, i))
    && (s.phase != Gathering ==> Gathered(s))
  }

  function Becomes(s: State, a: Action): Task
    requires Fits(s) && Can(s, a) && !a.Flush?
  {
    Do(s, a).tasks[a.i]
  }

  lemma OnlyOneTaskMoves(s: State, a: Action)
    requires Fits(s) && Can(s, a)
    ensures Fits(Do(s, a)) && Do(s, a).ids == s.ids
    ensures Do(s, a).tasks == if a.Flush? then s.tasks else s.tasks[a.i := Becomes(s, a)]
  {
  }

  lemma BudgetIsConserved(s: State, a: Action)
    requires Fits(s) && Can(s, a) && Conserved(s)
    ensures Conserved(Do(s, a))
  {
    OnlyOneTaskMoves(s, a);
    if !a.Flush? {
      CountAfter(s.tasks, a.i, Becomes(s, a), HOLDING);
      CountAfter(s.tasks, a.i, Becomes(s, a), RUNNING);
    }
  }

  lemma TaskStillTells(s: State, a: Action, i: nat)
    requires Fits(s) && Can(s, a) && i < |s.tasks| && Tells(s, i)
    ensures Fits(Do(s, a)) && Tells(Do(s, a), i)
  {
    OnlyOneTaskMoves(s, a);
  }

  lemma MarksAreSettled(s: State, a: Action, before: set<Id>)
    requires Fits(s) && Can(s, a) && MarkedIsSettled(s, before)
    requires !a.Flush? ==> Tells(s, a.i)
    ensures MarkedIsSettled(Do(s, a), before)
  {
  }

  lemma ActionIsSound(s: State, a: Action, before: set<Id>)
    requires Sound(s, before) && Can(s, a)
    ensures Sound(Do(s, a), before)
  {
    var after := Do(s, a);
    OnlyOneTaskMoves(s, a);
    BudgetIsConserved(s, a);
    MarksAreSettled(s, a, before);
    forall i | 0 <= i < |after.tasks|
      ensures Tells(after, i)
    {
      TaskStillTells(s, a, i);
    }
  }

  predicate Possible(s: State, actions: seq<Action>)
    requires Fits(s)
    decreases |actions|
  {
    actions == [] || (Can(s, actions[0]) && Possible(Do(s, actions[0]), actions[1..]))
  }

  function After(s: State, actions: seq<Action>): (after: State)
    requires Fits(s) && Possible(s, actions)
    ensures Fits(after) && after.ids == s.ids
    decreases |actions|
  {
    if actions == [] then s else After(Do(s, actions[0]), actions[1..])
  }

  lemma {:induction false} ActionsAreSound(s: State, actions: seq<Action>, before: set<Id>)
    requires Sound(s, before) && Possible(s, actions)
    ensures Sound(After(s, actions), before)
    decreases |actions|
    ensures
      var after := After(s, actions);
      && after.ids == s.ids && after.budget == s.budget && after.permits == s.permits
      && s.marked <= after.marked && s.irrelevant <= after.irrelevant && s.durable <= after.durable
  {
    if actions != [] {
      ActionIsSound(s, actions[0], before);
      ActionsAreSound(Do(s, actions[0]), actions[1..], before);
    }
  }

  lemma {:induction false} NoneOfThem(tasks: seq<Task>, kinds: set<Task>)
    requires forall i :: 0 <= i < |tasks| ==> tasks[i] !in kinds
    ensures Count(tasks, kinds) == 0
  {
    if tasks != [] {
      NoneOfThem(tasks[1..], kinds);
    }
  }

  lemma BegunIsSound(ids: seq<Id>, permits: nat, durableWrites: bool, budget: nat, world: Holdings, before: set<Id>)
    requires world.marked <= before + world.irrelevant + world.durable
    ensures Sound(Begun(ids, permits, durableWrites, budget, world), before)
  {
    var s := Begun(ids, permits, durableWrites, budget, world);
    NoneOfThem(s.tasks, HOLDING);
    NoneOfThem(s.tasks, RUNNING);
  }

  // ----- What the page reports

  datatype PageResult = PageResult(processed: nat, deferred: nat, unflushed: nat, failed: seq<Id>, flushError: bool) {
    predicate Complete() {
      failed == [] && deferred == 0 && unflushed == 0
    }

    predicate Stalled() {
      flushError || (failed != [] && processed == 0)
    }
  }

  function FailedIds(ids: seq<Id>, tasks: seq<Task>): seq<Id>
    requires |ids| == |tasks|
  {
    if tasks == [] then [] else (if tasks[0] == Failed then [ids[0]] else []) + FailedIds(ids[1..], tasks[1..])
  }

  /** No task is left to run, and what a flush made durable is marked. */
  predicate Finished(s: State) {
    s.phase != Gathering && Gathered(s) && (s.phase == Flushed ==> forall i :: 0 <= i < |s.tasks| ==> s.tasks[i] != Written)
  }

  function Reported(s: State): PageResult
    requires Fits(s)
  {
    PageResult(Count(s.tasks, {Processed}), Count(s.tasks, {Deferred}), Count(s.tasks, {Written}),
               FailedIds(s.ids, s.tasks), s.phase == FlushFailed)
  }

  lemma CountFrom(tasks: seq<Task>, i: nat, kind: Task)
    requires i < |tasks|
    ensures Count(tasks[i..], {kind}) == Count(tasks[i + 1..], {kind}) + if tasks[i] == kind then 1 else 0
  {
    assert tasks[i..][1..] == tasks[i + 1..];
  }

  lemma FailedFrom(ids: seq<Id>, tasks: seq<Task>, i: nat)
    requires |ids| == |tasks| && i < |tasks|
    ensures FailedIds(ids[i..], tasks[i..]) == (if tasks[i] == Failed then [ids[i]] else []) + FailedIds(ids[i + 1..], tasks[i + 1..])
  {
    assert tasks[i..][1..] == tasks[i + 1..] && ids[i..][1..] == ids[i + 1..];
  }

  lemma {:induction false} CountIsNoneOrSome(tasks: seq<Task>, kinds: set<Task>)
    ensures Count(tasks, kinds) == 0 <==> forall i :: 0 <= i < |tasks| ==> tasks[i] !in kinds
  {
    if tasks != [] {
      CountIsNoneOrSome(tasks[1..], kinds);
      assert forall i :: 1 <= i < |tasks| ==> tasks[i] == tasks[1..][i - 1];
    }
  }

  lemma {:induction false} FailedIdsIsNoneOrSome(ids: seq<Id>, tasks: seq<Task>)
    requires |ids| == |tasks|
    ensures FailedIds(ids, tasks) == [] <==> forall i :: 0 <= i < |tasks| ==> tasks[i] != Failed
  {
    if tasks != [] {
      FailedIdsIsNoneOrSome(ids[1..], tasks[1..]);
      assert forall i :: 1 <= i < |tasks| ==> tasks[i] == tasks[1..][i - 1];
    }
  }

  /** A page reports itself complete exactly when every record on it was dismissed or processed. */
  lemma CompleteIsAllSettled(s: State)
    requires Fits(s) && Finished(s)
    ensures Reported(s).Complete() <==> forall i :: 0 <= i < |s.tasks| ==> s.tasks[i] in SETTLED
  {
    CountIsNoneOrSome(s.tasks, {Deferred});
    CountIsNoneOrSome(s.tasks, {Written});
    FailedIdsIsNoneOrSome(s.ids, s.tasks);
  }

  lemma {:induction false} CountIsMonotone(tasks: seq<Task>, some: set<Task>, all: set<Task>)
    requires some <= all
    ensures Count(tasks, some) <= Count(tasks, all)
  {
    if tasks != [] {
      CountIsMonotone(tasks[1..], some, all);
    }
  }

  /** Under any interleaving the page processes no more than its budget, and complete means every id is marked. */
  lemma PageKeepsItsWord(s: State, before: set<Id>)
    requires Sound(s, before) && Finished(s)
    ensures Reported(s).processed <= s.budget
    ensures Reported(s).Complete() ==> forall id :: id in s.ids ==> id in s.marked
  {
    CountIsMonotone(s.tasks, {Processed}, HOLDING);
    CompleteIsAllSettled(s);
    if Reported(s).Complete() {
      forall id | id in s.ids
        ensures id in s.marked
      {
        var i :| 0 <= i < |s.ids| && s.ids[i] == id;
        assert Tells(s, i);
      }
    }
  }

  // ----- A page without faults

  /** No task fails, and none is told to stop. */
  predicate Faultless(a: Action) {
    !a.Fail? && !(a.Start? && a.stop)
  }

  /** Nothing failed, and nothing was deferred while a slot was free. */
  ghost predicate Unfailed(s: State) {
    forall i :: 0 <= i < |s.tasks| ==> s.tasks[i] != Failed && (s.tasks[i] == Deferred ==> s.free <= 0)
  }

  lemma FaultlessStep(s: State, a: Action)
    requires Fits(s) && Can(s, a) && Faultless(a) && Unfailed(s)
    ensures Unfailed(Do(s, a))
  {
    OnlyOneTaskMoves(s, a);
  }

  lemma {:induction false} FaultlessSteps(s: State, actions: seq<Action>)
    requires Fits(s) && Possible(s, actions) && Unfailed(s)
    requires forall i :: 0 <= i < |actions| ==> Faultless(actions[i])
    ensures Unfailed(After(s, actions))
    decreases |actions|
  {
    if actions != [] {
      FaultlessStep(s, actions[0]);
      FaultlessSteps(Do(s, actions[0]), actions[1..]);
    }
  }

  lemma {:induction false} CountLeavesOut(tasks: seq<Task>, kinds: set<Task>)
    ensures Count(tasks, kinds) <= |tasks|
    ensures Count(tasks, kinds) == |tasks| ==> forall i :: 0 <= i < |tasks| ==> tasks[i] in kinds
  {
    if tasks != [] {
      CountLeavesOut(tasks[1..], kinds);
    }
  }

  /** A finished page without a fault processed as many records as its budget had slots, or deferred none and is complete. */
  lemma UnfailedIsWhole(s: State, before: set<Id>)
    requires Sound(s, before) && Finished(s) && Unfailed(s) && s.phase == Flushed
    ensures Reported(s).failed == [] && Reported(s).unflushed == 0 && !Reported(s).flushError
    ensures Reported(s).deferred > 0 ==> Reported(s).processed == s.budget
    ensures |s.ids| <= s.budget ==> Reported(s).Complete()
  {
    FailedIdsIsNoneOrSome(s.ids, s.tasks);
    CountIsNoneOrSome(s.tasks, {Written});
    CountIsNoneOrSome(s.tasks, {Deferred});
    HoldingIsProcessed(s.tasks);
    CountLeavesOut(s.tasks, HOLDING);
    assert Deferred !in HOLDING;
  }

  lemma {:induction false} HoldingIsProcessed(tasks: seq<Task>)
    requires forall i :: 0 <= i < |tasks| ==> tasks[i] !in UNFINISHED && tasks[i] != Written
    ensures Count(tasks, HOLDING) == Count(tasks, {Processed})
  {
    if tasks != [] {
      assert tasks[0] in HOLDING <==> tasks[0] == Processed;
      HoldingIsProcessed(tasks[1..]);
    }
  }

  // ----- Every page finishes

  function Left(t: Task): nat {
    match t
    case Waiting => 4
    case Judging => 3
    case Working => 2
    case Dismissing => 1
    case Marking => 1
    case Written => 1
    case _ => 0
  }

  function LeftOf(tasks: seq<Task>): nat {
    if tasks == [] then 0 else Left(tasks[0]) + LeftOf(tasks[1..])
  }

  /** How many actions the page can still take. */
  function Remaining(s: State): nat {
    LeftOf(s.tasks) + if s.phase == Gathering then 1 else 0
  }

  lemma {:induction false} LeftAfter(tasks: seq<Task>, i: nat, t: Task)
    requires i < |tasks|
    ensures LeftOf(tasks[i := t]) == LeftOf(tasks) - Left(tasks[i]) + Left(t)
  {
    if i == 0 {
      assert tasks[0 := t][1..] == tasks[1..];
    } else {
      assert tasks[i := t][1..] == tasks[1..][i - 1 := t];
      LeftAfter(tasks[1..], i - 1, t);
    }
  }

  lemma ActionLeavesLess(s: State, a: Action)
    requires Fits(s) && Can(s, a)
    ensures Remaining(Do(s, a)) < Remaining(s)
  {
    OnlyOneTaskMoves(s, a);
    if !a.Flush? {
      LeftAfter(s.tasks, a.i, Becomes(s, a));
    }
  }

  lemma {:induction false} AllWaiting(n: nat, tasks: seq<Task>)
    requires |tasks| == n && forall i :: 0 <= i < n ==> tasks[i] == Waiting
    ensures LeftOf(tasks) == 4 * n
  {
    if n > 0 {
      AllWaiting(n - 1, tasks[1..]);
    }
  }

  lemma {:induction false} RunsOut(s: State, actions: seq<Action>)
    requires Fits(s) && Possible(s, actions)
    ensures |actions| <= Remaining(s)
    decreases |actions|
  {
    if actions != [] {
      ActionLeavesLess(s, actions[0]);
      RunsOut(Do(s, actions[0]), actions[1..]);
    }
  }

  /** No page takes more than four steps a record and the flush. */
  lemma PageStops(ids: seq<Id>, permits: nat, durableWrites: bool, budget: nat, world: Holdings, actions: seq<Action>)
    requires Possible(Begun(ids, permits, durableWrites, budget, world), actions)
    ensures |actions| <= 4 * |ids| + 1
  {
    var s := Begun(ids, permits, durableWrites, budget, world);
    AllWaiting(|ids|, s.tasks);
    RunsOut(s, actions);
  }

  /** With a permit to give, a page that is not finished can go on; without one, its records wait forever. */
  lemma PageGoesOnWithPermits(s: State, before: set<Id>)
    requires Sound(s, before) && !Finished(s)
    ensures s.permits > 0 ==> exists a :: Can(s, a)
    ensures s.permits == 0 && s.phase == Gathering && s.tasks != [] && (forall i :: 0 <= i < |s.tasks| ==> s.tasks[i] == Waiting)
            ==> !exists a :: Can(s, a)
  {
    if s.phase != Gathering {
      var i :| 0 <= i < |s.tasks| && s.tasks[i] == Written;
      assert Can(s, Settle(i));
    } else if Gathered(s) {
      assert Can(s, Flush(true));
    } else {
      CountIsNoneOrSome(s.tasks, RUNNING);
      var i :| 0 <= i < |s.tasks| && s.tasks[i] in UNFINISHED;
      if Count(s.tasks, RUNNING) == 0 {
        assert s.tasks[i] == Waiting;
        assert s.permits > 0 ==> Can(s, Start(i, false));
        assert s.tasks[i] in UNFINISHED;
      } else {
        var j :| 0 <= j < |s.tasks| && s.tasks[j] in RUNNING;
        assert Can(s, Fail(j));
      }
    }
  }

  // ----- One record, alone

  /** What the collaborators do for a record: `None` and `false` stand for an exception. */
  datatype Answers = Answers(stop: bool, relevance: Option<bool>, written: bool, marked: bool)

  class PageBudget {
    var remaining: int

    constructor (slots: int)
      ensures remaining == slots
    {
      remaining := slots;
    }

    method Reserve() returns (reserved: bool)
      modifies this
      ensures reserved == (old(remaining) > 0)
      ensures remaining == if reserved then old(remaining) - 1 else old(remaining)
    {
      if remaining <= 0 {
        return false;
      }
      remaining := remaining - 1;
      return true;
    }

    method Release()
      modifies this
      ensures remaining == old(remaining) + 1
    {
      remaining := remaining + 1;
    }
  }

  /** The processed ids the state manager holds, and the exporter's buffered and durable records. */
  class Stores {
    var marked: set<Id>
    var buffered: set<Id>
    var durable: set<Id>

    constructor ()
      ensures marked == {} && buffered == {} && durable == {}
    {
      marked, buffered, durable := {}, {}, {};
    }
  }

  /** The steps a record's task takes from its first slot on, when no other task runs between them. */
  function FromReserved(s: State, i: nat, answers: Answers): seq<Action> {
    if !answers.written then [Fail(i)]
    else [Write(i)] + if !s.durableWrites then [] else [if answers.marked then Mark(i) else Fail(i)]
  }

  function FromJudging(s: State, i: nat, answers: Answers): seq<Action> {
    match answers.relevance
    case None => [Fail(i)]
    case Some(false) => [Judge(i, false)] + [if answers.marked then Dismiss(i) else Fail(i)]
    case Some(true) => [Judge(i, true)] + FromReserved(s, i, answers)
  }

  function Alone(s: State, i: nat, answers: Answers): seq<Action> {
    [Start(i, answers.stop)] + if s.free <= 0 || answers.stop then [] else FromJudging(s, i, answers)
  }

  function FromReservedSettled(s: State, i: nat, answers: Answers): (State, Task)
    requires i < |s.ids|
  {
    var id := {s.ids[i]};
    if !answers.written then (s.(free := s.free + 1), Failed)
    else if !s.durableWrites then (s.(buffered := s.buffered + id), Written)
    else if !answers.marked then (s.(free := s.free + 1, durable := s.durable + id), Failed)
    else (s.(durable := s.durable + id, marked := s.marked + id), Processed)
  }

  function FromJudgingSettled(s: State, i: nat, answers: Answers): (State, Task)
    requires i < |s.ids|
  {
    var id := {s.ids[i]};
    match answers.relevance
    case None => (s, Failed)
    case Some(false) =>
      var judged := s.(irrelevant := s.irrelevant + id);
      if answers.marked then (judged.(marked := s.marked + id), Irrelevant) else (judged, Failed)
    case Some(true) => FromReservedSettled(s.(free := s.free - 1), i, answers)
  }

  /** The slots, the marks, the buffer and the sink once the record's task ended, and how it ended. */
  function Settled(s: State, i: nat, answers: Answers): (State, Task)
    requires i < |s.ids|
  {
    if s.free <= 0 || answers.stop then (s, Deferred) else FromJudgingSettled(s, i, answers)
  }

  ghost predicate Leads(s: State, actions: seq<Action>, to: State) {
    Fits(s) && Possible(s, actions) && After(s, actions) == to
  }

  lemma LeadsOn(s: State, a: Action, next: State, rest: seq<Action>, to: State)
    requires Fits(s) && Can(s, a) && next == Do(s, a) && Leads(next, rest, to)
    ensures Leads(s, [a] + rest, to)
  {
    assert ([a] + rest)[1..] == rest;
  }

  lemma LeadsInOne(s: State, a: Action, to: State)
    requires Fits(s) && Can(s, a) && to == Do(s, a)
    ensures Leads(s, [a], to)
  {
    assert [a] + [] == [a];
    LeadsOn(s, a, to, [], to);
  }

  lemma LeadsInTwo(s: State, a: Action, next: State, b: Action, to: State)
    requires Fits(s) && Can(s, a) && next == Do(s, a) && Fits(next) && Can(next, b) && to == Do(next, b)
    ensures Leads(s, [a] + [b], to)
  {
    LeadsInOne(next, b, to);
    LeadsOn(s, a, next, [b], to);
  }

  function With(end: (State, Task), tasks: seq<Task>, i: nat): State
    requires i < |tasks|
  {
    end.0.(tasks := tasks[i := end.1])
  }

  lemma ReservedSettles(s: State, i: nat, answers: Answers, to: State)
    requires Fits(s) && s.phase == Gathering && i < |s.tasks| && s.tasks[i] == Working
    requires to == With(FromReservedSettled(s, i, answers), s.tasks, i)
    ensures Leads(s, FromReserved(s, i, answers), to)
  {
    if !answers.written {
      LeadsInOne(s, Fail(i), to);
    } else if !s.durableWrites {
      LeadsInOne(s, Write(i), to);
      assert [Write(i)] + [] == [Write(i)];
    } else {
      var written := Do(s, Write(i));
      var last := if answers.marked then Mark(i) else Fail(i);
      assert to == Do(written, last);
      LeadsInTwo(s, Write(i), written, last, to);
    }
  }

  lemma DismissalSettles(s: State, i: nat, answers: Answers, to: State)
    requires Fits(s) && s.phase == Gathering && i < |s.tasks| && s.tasks[i] == Judging
    requires answers.relevance == Some(false) && to == With(FromJudgingSettled(s, i, answers), s.tasks, i)
    ensures Leads(s, FromJudging(s, i, answers), to)
  {
    var judged := Do(s, Judge(i, false));
    var last := if answers.marked then Dismiss(i) else Fail(i);
    assert to == Do(judged, last);
    LeadsInTwo(s, Judge(i, false), judged, last, to);
  }

  lemma JudgingSettles(s: State, i: nat, answers: Answers, to: State)
    requires Fits(s) && s.phase == Gathering && i < |s.tasks| && s.tasks[i] == Judging && s.free > 0
    requires to == With(FromJudgingSettled(s, i, answers), s.tasks, i)
    ensures Leads(s, FromJudging(s, i, answers), to)
  {
    match answers.relevance
    case None =>
      LeadsInOne(s, Fail(i), to);
    case Some(false) =>
      DismissalSettles(s, i, answers, to);
    case Some(true) =>
      var reserved := Do(s, Judge(i, true));
      ReservedSettles(reserved, i, answers, to);
      LeadsOn(s, Judge(i, true), reserved, FromReserved(s, i, answers), to);
  }

  /** A record's task, run with nothing in between, ends as its settlement says. */
  lemma AloneSettles(s: State, i: nat, answers: Answers, to: State)
    requires Fits(s) && Can(s, Start(i, answers.stop))
    requires to == With(Settled(s, i, answers), s.tasks, i)
    ensures Leads(s, Alone(s, i, answers), to)
  {
    var started := Do(s, Start(i, answers.stop));
    if s.free <= 0 || answers.stop {
      LeadsInOne(s, Start(i, answers.stop), to);
      assert [Start(i, answers.stop)] + [] == [Start(i, answers.stop)];
    } else {
      JudgingSettles(started, i, answers, to);
      LeadsOn(s, Start(i, answers.stop), started, FromJudging(s, i, answers), to);
    }
  }

  ghost predicate Agree(s: State, budget: PageBudget, stores: Stores)
    reads budget, stores
  {
    s.free == budget.remaining && s.marked == stores.marked && s.buffered == stores.buffered && s.durable == stores.durable
  }

  /** Settles one record as its task would with nothing in between. */
  method SettleRecord(ghost s: State, ghost i: nat, id: Id, answers: Answers, durableWrites: bool,
                      budget: PageBudget, stores: Stores)
    returns (outcome: Task)
    requires Fits(s) && i < |s.ids| && s.ids[i] == id && s.durableWrites == durableWrites
    requires Can(s, Start(i, answers.stop)) && Agree(s, budget, stores)
    modifies budget, stores
    ensures
      var after := With(Settled(s, i, answers), s.tasks, i);
      && Leads(s, Alone(s, i, answers), after)
      && after.tasks[i] == outcome && Agree(after, budget, stores)
  {
    AloneSettles(s, i, answers, With(Settled(s, i, answers), s.tasks, i));
    if budget.remaining <= 0 || answers.stop {
      return Deferred;
    }
    if answers.relevance.None? {
      return Failed;
    }
    if !answers.relevance.value {
      if !answers.marked {
        return Failed;
      }
      stores.marked := stores.marked + {id};
      return Irrelevant;
    }
    var reserved := budget.Reserve();
    if !reserved {
      return Deferred;
    }
    if !answers.written {
      budget.Release();
      return Failed;
    }
    if !durableWrites {
      stores.buffered := stores.buffered + {id};
      return Written;
    }
    stores.durable := stores.durable + {id};
    if !answers.marked {
      budget.Release();
      return Failed;
    }
    stores.marked := stores.marked + {id};
    return Processed;
  }
}
