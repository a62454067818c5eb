/** What a newest-first run saves stays true of its listing, page after page (_listing_head.py, _listing_position.py). */
module ListingSafety {
  import opened ListingHead
  import opened ListingPosition

  // ----- What the saved metadata promises

  ghost predicate Unique(listing: seq<Id>) {
    forall i, j :: 0 <= i < j < |listing| ==> listing[i] != listing[j]
  }

  ghost predicate AllSettled(listing: seq<Id>, from: nat, to: nat, settled: set<Id>) {
    to <= |listing| && forall p :: from <= p < to ==> listing[p] in settled
  }

  /** The listing shows `ids` from `at` on. */
  ghost predicate Stands(listing: seq<Id>, at: nat, ids: seq<Id>) {
    at + |ids| <= |listing| && forall i :: 0 <= i < |ids| ==> ids[i] == listing[at + i]
  }

  /** The saved ids now stand `s` below their saved offset, and every entry from there to the saved cursor is settled. */
  ghost predicate Describes(saved: Saved, listing: seq<Id>, settled: set<Id>, s: nat) {
    var headEnd := s + saved.headOffset + |saved.headIds|;
    && Stands(listing, s + saved.headOffset, saved.headIds)
    && AllSettled(listing, headEnd, s + DecimalOffset(saved.cursor), settled)
  }

  /** The metadata describes the listing as it was before some entries were put on top, or says nothing about it. */
  ghost predicate SafeFor(saved: Saved, listing: seq<Id>, settled: set<Id>) {
    saved.headIds == [] || exists s: nat :: Describes(saved, listing, settled, s)
  }

  /** New entries on top and newly settled entries keep the promise. */
  lemma SafeForGrows(saved: Saved, listing: seq<Id>, settled: set<Id>, fresher: seq<Id>, more: set<Id>)
    requires SafeFor(saved, listing, settled) && settled <= more
    ensures SafeFor(saved, fresher + listing, more)
  {
    if saved.headIds != [] {
      var s: nat :| Describes(saved, listing, settled, s);
      assert Describes(saved, fresher + listing, more, |fresher| + s);
    }
  }

  // ----- What holds of a run between two pages

  ghost predicate ScannedTo(h: Head, listing: seq<Id>, settled: set<Id>, offset: nat) {
    && offset <= |listing|
    && h.scanOffset <= offset && (h.scanSettled ==> h.scanOffset == offset)
    && AllSettled(listing, 0, h.scanOffset, settled)
    && |h.freshIds| <= offset && Stands(listing, 0, h.freshIds)
    && (offset > 0 ==> h.freshIds != [])
  }

  /** Every unsettled entry of the head lies at or before the ids noted for the next run. */
  ghost predicate HeadNoted(h: Head, listing: seq<Id>, settled: set<Id>, offset: nat) {
    match h.unsettledHead
    case None => AllSettled(listing, 0, offset, settled)
    case Some((at, ids)) =>
      && ids != [] && at + |ids| <= offset && Stands(listing, at, ids)
      && AllSettled(listing, at + |ids|, offset, settled)
  }

  /** What the run was told of the earlier ones still stands in the metadata, and holds. */
  ghost predicate Anchored(h: Head, listing: seq<Id>, settled: set<Id>, s: nat) {
    && h.savedIds == h.saved.headIds != [] && h.savedOffset == h.saved.headOffset
    && h.savedBacklog == DecimalOffset(h.saved.cursor) && Describes(h.saved, listing, settled, s)
  }

  /** The run has paged from offset 0 and not yet passed the saved ids. */
  ghost predicate Heading(h: Head, listing: seq<Id>, settled: set<Id>, s: nat, offset: nat) {
    && h.mode == Scanning && h.backlogSettled && (h.shift == None || h.shift == Some(s))
    && ScannedTo(h, listing, settled, offset) && HeadNoted(h, listing, settled, offset)
    && Anchored(h, listing, settled, s)
  }

  ghost predicate Running(h: Head, listing: seq<Id>, settled: set<Id>, s: nat, offset: nat) {
    match h.mode
    case Rescan =>
      && ScannedTo(h, listing, settled, offset)
      && (h.saved.headIds != [] ==> Describes(h.saved, listing, settled, 0))
    case Scanning =>
      Heading(h, listing, settled, s, offset)
    case Probing =>
      && Describes(h.saved, listing, settled, 0)
      && h.saved.headOffset + |h.saved.headIds| <= h.headEnd < offset <= DecimalOffset(h.saved.cursor)
      && h.saved.headIds != [] && h.backlogSettled
    case Backlog =>
      && Describes(h.saved, listing, settled, 0) && offset <= |listing|
      && h.saved.headOffset + |h.saved.headIds| <= offset
      && (h.backlogSettled ==> DecimalOffset(h.saved.cursor) == offset)
  }

  lemma RunningIsSafe(h: Head, listing: seq<Id>, settled: set<Id>, s: nat, offset: nat)
    requires Running(h, listing, settled, s, offset)
    ensures SafeFor(h.saved, listing, settled)
  {
  }

  lemma BeginIsRunning(saved: Saved, pageSize: nat, listing: seq<Id>, settled: set<Id>) returns (s: nat)
    requires SafeFor(saved, listing, settled)
    ensures Running(Begin(saved, pageSize), listing, settled, s, 0)
  {
    if saved.headIds != [] {
      s :| Describes(saved, listing, settled, s);
    } else {
      s := 0;
    }
  }

  /** What a fetched page tells: which entries it lists, and that a complete page leaves none of them unsettled. */
  ghost predicate Fetched(listing: seq<Id>, offset: nat, page: Page, settled: set<Id>, more: set<Id>, complete: bool) {
    && |page.ids| == page.entries && Stands(listing, offset, page.ids)
    && settled <= more
    && (complete ==> forall id :: id in page.ids ==> id in more)
  }

  lemma RunningGrows(h: Head, listing: seq<Id>, settled: set<Id>, s: nat, offset: nat, more: set<Id>)
    requires Running(h, listing, settled, s, offset) && settled <= more
    ensures Running(h, listing, more, s, offset)
  {
  }

  // ----- One page, mode by mode

  lemma PageSettles(listing: seq<Id>, from: nat, offset: nat, page: Page, settled: set<Id>, more: set<Id>)
    requires Fetched(listing, offset, page, settled, more, true)
    requires from <= offset && AllSettled(listing, from, offset, more)
    ensures AllSettled(listing, from, offset + page.entries, more)
  {
    forall p | offset <= p < offset + page.entries
      ensures listing[p] in more
    {
      assert page.ids[p - offset] in page.ids;
    }
  }

  lemma ScanGoesOn(h: Head, listing: seq<Id>, settled: set<Id>, offset: nat, page: Page, more: set<Id>, complete: bool)
    requires ScannedTo(h, listing, more, offset) && page.entries > 0
    requires Fetched(listing, offset, page, settled, more, complete)
    ensures ScannedTo(Scanned(h, offset, page.ids, page.entries, complete), listing, more, offset + page.entries)
  {
    if h.scanSettled && complete {
      PageSettles(listing, 0, offset, page, settled, more);
    }
  }

  lemma AdoptedIsSafe(h: Head, listing: seq<Id>, settled: set<Id>, offset: nat)
    requires ScannedTo(h, listing, settled, offset)
    ensures Describes(Adopted(h).saved, listing, settled, 0)
    ensures ScannedTo(Adopted(h), listing, settled, offset)
  {
  }

  lemma {:induction false} LocatesTheShift(savedIds: seq<Id>, savedOffset: nat, listing: seq<Id>, s: nat, at: nat, ids: seq<Id>)
    requires Unique(listing) && Stands(listing, s + savedOffset, savedIds) && Stands(listing, at, ids)
    ensures Located(savedIds, savedOffset, at, ids) == None || Located(savedIds, savedOffset, at, ids) == Some(s)
    decreases |ids|
  {
    if ids != [] {
      var k := SavedIndex(savedIds, ids[0]);
      if k.Some? {
        assert listing[s + savedOffset + k.value] == savedIds[k.value] == ids[0] == listing[at];
      }
      assert forall i :: 0 <= i < |ids[1..]| ==> ids[1..][i] == ids[i + 1] == listing[at + 1 + i];
      LocatesTheShift(savedIds, savedOffset, listing, s, at + 1, ids[1..]);
    }
  }

  lemma TailStands(listing: seq<Id>, at: nat, ids: seq<Id>)
    requires Stands(listing, at, ids)
    ensures |Tail(ids)| <= |ids| && Stands(listing, at + |ids| - |Tail(ids)|, Tail(ids))
    ensures ids != [] ==> Tail(ids) != []
  {
    var from := |ids| - |Tail(ids)|;
    forall i | 0 <= i < |Tail(ids)|
      ensures Tail(ids)[i] == listing[at + from + i]
    {
      assert Tail(ids)[i] == ids[from + i];
    }
  }

  lemma HeadIsNoted(h: Head, listing: seq<Id>, settled: set<Id>, offset: nat, page: Page, more: set<Id>, complete: bool)
    requires HeadNoted(h, listing, more, offset) && page.entries > 0 && offset <= |listing|
    requires Fetched(listing, offset, page, settled, more, complete)
    ensures HeadNoted(NotedUnsettled(h, offset, page.ids, complete), listing, more, offset + page.entries)
  {
    if complete {
      var from := if h.unsettledHead.None? then 0 else h.unsettledHead.value.0 + |h.unsettledHead.value.1|;
      PageSettles(listing, from, offset, page, settled, more);
    } else {
      TailStands(listing, offset, page.ids);
    }
  }

  /** How much of a run's course is still ahead of it. */
  function Rank(mode: Mode): nat {
    match mode
    case Scanning => 2
    case Probing => 1
    case _ => 0
  }

  /**
   * The run goes on at `step.1` after the page it fetched in `mode` and ended at `next`: a jump ahead passes
   * settled entries only, and the one jump back leads from a probe to the end of the head.
   */
  ghost predicate GoesOn(step: (Head, nat), listing: seq<Id>, settled: set<Id>, s: nat, mode: Mode, next: nat) {
    && Running(step.0, listing, settled, s, step.1)
    && Rank(step.0.mode) <= Rank(mode)
    && (step.1 > next ==> AllSettled(listing, next, step.1, settled))
    && (step.1 < next ==> mode == Probing && step.0.mode == Backlog && step.0.realigned)
    && (step.0.mode == Probing ==> step.0.headEnd == next)
  }

  /** Past the saved ids, the new head ids and the backlog describe this run's own listing. */
  lemma PassingTheHead(h: Head, listing: seq<Id>, settled: set<Id>, s: nat, next: nat, tail: seq<Id>, step: (Head, nat))
    requires Heading(h, listing, settled, s, next) && next > 0 && h.shift == Some(s)
    requires next >= s + h.savedOffset + |h.savedIds|
    requires step == HeadPassed(h, next, tail)
    ensures GoesOn(step, listing, settled, s, Scanning, next)
  {
    var saved := HeadSaved(h, next, tail).saved;
    assert AllSettled(listing, saved.headOffset + |saved.headIds|, next, settled);
  }

  lemma ShiftIsLocated(h: Head, listing: seq<Id>, settled: set<Id>, s: nat, offset: nat, ids: seq<Id>, next: nat)
    requires Heading(h, listing, settled, s, next) && Unique(listing)
    requires offset < next == offset + |ids| && Stands(listing, offset, ids) && h.shift == None
    ensures Heading(h.(shift := Located(h.savedIds, h.savedOffset, offset, ids)), listing, settled, s, next)
  {
    LocatesTheShift(h.savedIds, h.savedOffset, listing, s, offset, ids);
    var found := h.(shift := Located(h.savedIds, h.savedOffset, offset, ids));
    assert ScannedTo(found, listing, settled, next);
    assert HeadNoted(found, listing, settled, next);
  }

  lemma HeadKeeps(h: Head, listing: seq<Id>, settled: set<Id>, s: nat, offset: nat, page: Page, more: set<Id>, complete: bool,
                  step: (Head, nat))
    requires Heading(NotedUnsettled(h, offset, page.ids, complete), listing, more, s, offset + page.entries) && Unique(listing)
    requires Fetched(listing, offset, page, settled, more, complete) && page.entries > 0
    requires step == HeadObserved(h, offset, page.ids, offset + page.entries, complete)
    ensures GoesOn(step, listing, more, s, Scanning, offset + page.entries)
  {
    var next := offset + page.entries;
    var found := Found(h, offset, page.ids, complete);
    if h.shift == None {
      ShiftIsLocated(NotedUnsettled(h, offset, page.ids, complete), listing, more, s, offset, page.ids, next);
    }
    assert Heading(found, listing, more, s, next);
    if found.shift.Some? && next >= h.savedOffset + |h.savedIds| + found.shift.value {
      PassingTheHead(found, listing, more, s, next, Tail(page.ids), step);
    }
  }

  /** Noting the scan leaves what the head, the probe and the backlog go by as it was. */
  lemma ScanLeavesTheRest(h: Head, pageStart: nat, ids: seq<Id>, entries: nat, complete: bool)
    ensures
      var s := Scanned(h, pageStart, ids, entries, complete);
      s == h.(freshIds := s.freshIds, scanSettled := s.scanSettled, scanOffset := s.scanOffset, scanTail := s.scanTail)
  {
  }

  lemma HeadingGoesOn(h: Head, scanned: Head, listing: seq<Id>, settled: set<Id>, s: nat, offset: nat, page: Page,
                      more: set<Id>, complete: bool)
    requires Heading(h, listing, more, s, offset) && page.entries > 0
    requires Fetched(listing, offset, page, settled, more, complete)
    requires scanned == Scanned(h, offset, page.ids, page.entries, complete)
    ensures Heading(NotedUnsettled(scanned, offset, page.ids, complete), listing, more, s, offset + page.entries)
  {
    var noted := NotedUnsettled(scanned, offset, page.ids, complete);
    ScanLeavesTheRest(h, offset, page.ids, page.entries, complete);
    assert ScannedTo(noted, listing, more, offset + page.entries) by {
      ScanGoesOn(h, listing, settled, offset, page, more, complete);
    }
    assert HeadNoted(noted, listing, more, offset + page.entries) by {
      HeadIsNoted(scanned, listing, settled, offset, page, more, complete);
    }
    assert Anchored(noted, listing, more, s);
  }

  /** A page goes to the part of the cursor its mode names. */
  lemma ObservedByMode(h: Head, offset: nat, page: Page, complete: bool)
    ensures
      var scanned := Scanned(h, offset, page.ids, page.entries, complete);
      var next := offset + page.entries;
      Observed(h, offset, page.ids, page.entries, complete)
      == match h.mode
         case Rescan => (Adopted(scanned), next)
         case Scanning => HeadObserved(scanned, offset, page.ids, next, complete)
         case Probing => ProbeObserved(scanned, offset, page.ids, next, complete)
         case Backlog => (BacklogObserved(scanned, next, Tail(page.ids), complete), next)
  {
  }

  lemma ScanningKeeps(h: Head, scanned: Head, listing: seq<Id>, settled: set<Id>, s: nat, offset: nat, page: Page,
                      more: set<Id>, complete: bool, step: (Head, nat))
    requires Heading(h, listing, more, s, offset) && Unique(listing) && page.entries > 0
    requires Fetched(listing, offset, page, settled, more, complete)
    requires scanned == Scanned(h, offset, page.ids, page.entries, complete)
    requires step == HeadObserved(scanned, offset, page.ids, offset + page.entries, complete)
    ensures GoesOn(step, listing, more, s, Scanning, offset + page.entries)
  {
    HeadingGoesOn(h, scanned, listing, settled, s, offset, page, more, complete);
    HeadKeeps(scanned, listing, settled, s, offset, page, more, complete, step);
  }

  lemma FallingBackKeeps(h: Head, listing: seq<Id>, settled: set<Id>, s: nat, offset: nat, step: (Head, nat))
    requires h.mode == Probing && Running(h, listing, settled, s, offset)
    requires step == (FellBack(h), h.headEnd)
    ensures GoesOn(step, listing, settled, s, Probing, offset) && step.1 < offset
  {
  }

  lemma ProbingKeeps(h: Head, listing: seq<Id>, settled: set<Id>, s: nat, offset: nat, page: Page, more: set<Id>, complete: bool,
                     step: (Head, nat))
    requires h.mode == Probing && Running(h, listing, more, s, offset) && page.entries > 0
    requires Fetched(listing, offset, page, settled, more, complete)
    requires step == ProbeObserved(h, offset, page.ids, offset + page.entries, complete)
    ensures GoesOn(step, listing, more, s, Probing, offset + page.entries)
  {
    if h.savedTail !! (set id | id in page.ids) {
      FallingBackKeeps(h, listing, more, s, offset, step);
    } else if complete {
      PageSettles(listing, h.saved.headOffset + |h.saved.headIds|, offset, page, settled, more);
    }
  }

  lemma BacklogKeeps(h: Head, listing: seq<Id>, settled: set<Id>, s: nat, offset: nat, page: Page, more: set<Id>, complete: bool,
                     step: (Head, nat))
    requires h.mode == Backlog && Running(h, listing, more, s, offset) && page.entries > 0
    requires Fetched(listing, offset, page, settled, more, complete)
    requires step == (BacklogObserved(h, offset + page.entries, Tail(page.ids), complete), offset + page.entries)
    ensures GoesOn(step, listing, more, s, Backlog, offset + page.entries)
  {
    if complete && h.backlogSettled {
      PageSettles(listing, h.saved.headOffset + |h.saved.headIds|, offset, page, settled, more);
    }
  }

  lemma RescanKeeps(h: Head, listing: seq<Id>, settled: set<Id>, s: nat, offset: nat, page: Page, more: set<Id>, complete: bool,
                    step: (Head, nat))
    requires h.mode == Rescan && Running(h, listing, more, s, offset) && page.entries > 0
    requires Fetched(listing, offset, page, settled, more, complete)
    requires step == (Adopted(Scanned(h, offset, page.ids, page.entries, complete)), offset + page.entries)
    ensures GoesOn(step, listing, more, s, Rescan, offset + page.entries)
  {
    ScanGoesOn(h, listing, settled, offset, page, more, complete);
    AdoptedIsSafe(Scanned(h, offset, page.ids, page.entries, complete), listing, more, offset + page.entries);
  }

  lemma NotingTheScanKeeps(h: Head, listing: seq<Id>, settled: set<Id>, s: nat, offset: nat, page: Page, complete: bool)
    requires h.mode == Probing || h.mode == Backlog
    requires Running(h, listing, settled, s, offset)
    ensures
      var scanned := Scanned(h, offset, page.ids, page.entries, complete);
      scanned.mode == h.mode && Running(scanned, listing, settled, s, offset)
  {
    ScanLeavesTheRest(h, offset, page.ids, page.entries, complete);
  }

  /** Whatever the mode, a page with entries keeps what holds of the run. */
  lemma PageKeeps(h: Head, listing: seq<Id>, settled: set<Id>, s: nat, offset: nat, page: Page, more: set<Id>, complete: bool,
                  step: (Head, nat))
    requires Running(h, listing, more, s, offset) && Unique(listing) && page.entries > 0
    requires Fetched(listing, offset, page, settled, more, complete)
    requires step == Observed(h, offset, page.ids, page.entries, complete)
    ensures GoesOn(step, listing, more, s, h.mode, offset + page.entries)
  {
    ObservedByMode(h, offset, page, complete);
    var scanned := Scanned(h, offset, page.ids, page.entries, complete);
    match h.mode
    case Rescan => RescanKeeps(h, listing, settled, s, offset, page, more, complete, step);
    case Scanning =>
      ScanningKeeps(h, scanned, listing, settled, s, offset, page, more, complete, step);
    case Probing =>
      NotingTheScanKeeps(h, listing, more, s, offset, page, complete);
      ProbingKeeps(scanned, listing, settled, s, offset, page, more, complete, step);
    case Backlog =>
      NotingTheScanKeeps(h, listing, more, s, offset, page, complete);
      BacklogKeeps(scanned, listing, settled, s, offset, page, more, complete, step);
  }

  // ----- The end of the listing

  lemma TruncationIsApart(saved: Saved, listing: seq<Id>, settled: set<Id>)
    requires SafeFor(saved, listing, settled)
    ensures SafeFor(saved.(truncated := false), listing, settled)
  {
    if saved.headIds != [] {
      var s: nat :| Describes(saved, listing, settled, s);
      assert Describes(saved.(truncated := false), listing, settled, s);
    }
  }

  lemma EndKeeps(h: Head, listing: seq<Id>, settled: set<Id>, s: nat, at: nat, offset: nat, end: nat, step: (Head, nat, bool))
    requires Running(h, listing, settled, s, at) && step == EndedAt(h, offset, end)
    ensures SafeFor(step.0.saved, listing, settled)
    ensures step.2 <==> h.mode == Probing && h.headEnd < end
    ensures step.2 && end <= at ==> GoesOn((step.0, step.1), listing, settled, s, Probing, end)
  {
    var after := Ended(h).0;
    assert SafeFor(after.saved, listing, settled) by {
      match h.mode
      case Scanning =>
        AdoptedIsSafe(h, listing, settled, at);
      case Probing =>
        FallingBackKeeps(h, listing, settled, s, at, (FellBack(h), h.headEnd));
        RunningIsSafe(FellBack(h), listing, settled, s, h.headEnd);
      case _ =>
        RunningIsSafe(h, listing, settled, s, at);
    }
    TruncationIsApart(after.saved, listing, settled);
    if h.mode == Probing {
      FallingBackKeeps(h, listing, settled, s, at, (FellBack(h), h.headEnd));
    }
  }

  /** A page, empty or not, last or not, leaves metadata that is true of the listing, and a run that goes on as it should. */
  lemma AdvanceKeeps(h: Head, listing: seq<Id>, settled: set<Id>, s: nat, offset: nat, page: Page, more: set<Id>, complete: bool,
                     step: (Head, nat, bool))
    requires Running(h, listing, settled, s, offset) && Unique(listing)
    requires Fetched(listing, offset, page, settled, more, complete)
    requires step == Advanced(h, offset, page, complete)
    ensures SafeFor(step.0.saved, listing, more)
    ensures step.2 ==> GoesOn((step.0, step.1), listing, more, s, h.mode, offset + page.entries)
    ensures step.2 && page.entries == 0 ==> h.mode == Probing && step.1 < offset
  {
    RunningGrows(h, listing, settled, s, offset, more);
    if page.entries == 0 {
      EndKeeps(h, listing, more, s, offset, offset, offset, step);
    } else {
      var observed := Observed(h, offset, page.ids, page.entries, complete);
      PageKeeps(h, listing, settled, s, offset, page, more, complete, observed);
      if page.next.NoCursor? {
        EndKeeps(observed.0, listing, more, s, observed.1, offset, offset + page.entries, step);
      } else {
        RunningIsSafe(observed.0, listing, more, s, observed.1);
      }
    }
  }

  // ----- A probe that misses the saved tail

  /** A probe sends the run back to the end of the head when it finds no entries, and otherwise exactly when none of
      the saved tail is on its page and the listing goes on behind it. */
  lemma ProbeGoesBack(h: Head, offset: nat, page: Page, complete: bool)
    requires h.mode == Probing && h.headEnd < offset
    ensures
      var step := Advanced(h, offset, page, complete);
      step.2 && step.1 == h.headEnd
      <==> page.entries == 0 || (h.savedTail !! (set id | id in page.ids) && !page.next.NoCursor?)
  {
  }

  /** What the run itself saw of the listing before it probed. */
  ghost predicate HeadHolds(h: Head, listing: seq<Id>, settled: set<Id>) {
    && Stands(listing, h.saved.headOffset, h.saved.headIds)
    && AllSettled(listing, h.saved.headOffset + |h.saved.headIds|, h.headEnd, settled)
  }

  /** Whatever became of the entries saved earlier, the head a run passes is the head of its own listing. */
  lemma PassedHeadHolds(h: Head, listing: seq<Id>, settled: set<Id>, next: nat, tail: seq<Id>)
    requires h.mode == Scanning && h.shift.Some? && next > 0
    requires ScannedTo(h, listing, settled, next) && HeadNoted(h, listing, settled, next)
    ensures HeadHolds(HeadPassed(h, next, tail).0, listing, settled)
  {
  }

  /** On the last page of its listing, a probe that misses the saved tail ends the run. */
  lemma LostTailEnds(h: Head, offset: nat, page: Page, complete: bool)
    requires h.mode == Probing && page.entries > 0 && page.next.NoCursor?
    requires h.savedTail !! (set id | id in page.ids)
    ensures !Advanced(h, offset, page, complete).2
  {
  }

  lemma LostTailFallsBack(h: Head, offset: nat, page: Page, complete: bool)
    requires h.mode == Probing && (page.entries == 0 || h.savedTail !! (set id | id in page.ids))
    ensures
      var after := Advanced(h, offset, page, complete).0.saved;
      && after.headIds == h.saved.headIds && after.headOffset == h.saved.headOffset
      && after.cursor == CursorAt(h.headEnd) && after.tailIds == h.headEndTail
  {
    if page.entries > 0 {
      ScanLeavesTheRest(h, offset, page.ids, page.entries, complete);
      var scanned := Scanned(h, offset, page.ids, page.entries, complete);
      assert Observed(h, offset, page.ids, page.entries, complete) == (FellBack(scanned), h.headEnd);
    }
  }

  /** A probe without the saved tail, the last page or not, saves what is true of its listing even if entries the last
      run saw are gone. */
  lemma LostTailIsSafe(h: Head, listing: seq<Id>, settled: set<Id>, offset: nat, page: Page, complete: bool)
    requires h.mode == Probing && HeadHolds(h, listing, settled)
    requires page.entries == 0 || h.savedTail !! (set id | id in page.ids)
    ensures SafeFor(Advanced(h, offset, page, complete).0.saved, listing, settled)
  {
    LostTailFallsBack(h, offset, page, complete);
    var after := Advanced(h, offset, page, complete).0.saved;
    DescribesHead(after, h, listing, settled);
  }

  lemma DescribesHead(saved: Saved, h: Head, listing: seq<Id>, settled: set<Id>)
    requires HeadHolds(h, listing, settled) && saved.cursor == CursorAt(h.headEnd)
    requires saved.headIds == h.saved.headIds && saved.headOffset == h.saved.headOffset
    ensures SafeFor(saved, listing, settled)
  {
    assert Describes(saved, listing, settled, 0);
  }

  const LISTED: seq<Id> := ["a", "p", "q", "d", "b", "c", "x"]

  /** The listing once `p`, `q` and `d` were taken from it. */
  const CUT_DOWN: seq<Id> := ["a", "b", "c", "x"]

  /** What a run kept that settled the first four entries. */
  const KEPT: Saved := Saved(Decimal(4), false, ["a"], 0, ["d"])

  const SETTLED: set<Id> := {"a", "p", "q", "d"}

  /** The next run, which pages one entry at a time, when it has read `a` and is to probe where `d` was. */
  const PROBING: Head :=
    Head(KEPT, 1, ["a"], 0, 4, {"d"}, Probing, None, ["a"], true, 1, ["a"], true, 1, ["a"], Some(0), false)

  lemma TheHeadIsFound()
    ensures Advanced(Begin(KEPT, 1), 0, Page(["a"], 1, Decimal(1), false), true) == (PROBING, 3, true)
  {
    var begun := Begin(KEPT, 1);
    assert begun.savedTail == {"d"};
    assert Scanned(begun, 0, ["a"], 1, true)
           == begun.(freshIds := ["a"], scanOffset := 1, scanTail := ["a"]);
    assert SavedIndex(["a"], "a") == Some(0);
    assert Located(["a"], 0, 0, ["a"]) == Some(0);
  }

  const LAST: Page := Page(["x"], 1, NoCursor, false)

  lemma ItIsSafeToProbe()
    ensures SafeFor(KEPT, LISTED, SETTLED) && HeadHolds(PROBING, CUT_DOWN, SETTLED + {"x"})
  {
    assert Describes(KEPT, LISTED, SETTLED, 0);
  }

  lemma TwoAreUnsettled()
    ensures CUT_DOWN[1] == "b" && CUT_DOWN[2] == "c" && "b" !in SETTLED && "c" !in SETTLED
  {
  }

  /** The run finds the last entry of the listing where `d` was, and ends: it never lists `b` and `c`. */
  lemma ALostTailEndsTheRun()
    ensures SafeFor(KEPT, LISTED, SETTLED) && CUT_DOWN[0] == "a" && CUT_DOWN[3] == "x"
    ensures Advanced(Begin(KEPT, 1), 0, Page(["a"], 1, Decimal(1), false), true) == (PROBING, 3, true)
    ensures !Advanced(PROBING, 3, LAST, true).2
    ensures CUT_DOWN[1] == "b" && CUT_DOWN[2] == "c" && "b" !in SETTLED && "c" !in SETTLED
    ensures SafeFor(Advanced(PROBING, 3, LAST, true).0.saved, CUT_DOWN, SETTLED + {"x"})
  {
    TheHeadIsFound();
    TwoAreUnsettled();
    ItIsSafeToProbe();
    assert PROBING.savedTail == {"d"} && LAST.ids == ["x"];
    LostTailEnds(PROBING, 3, LAST, true);
    LostTailIsSafe(PROBING, CUT_DOWN, SETTLED + {"x"}, 3, LAST, true);
  }

  // ----- Whole runs

  /** Where a run stood, and the page it fetched there. */
  datatype Point = Point(head: Head, offset: nat, settled: set<Id>, page: Page, complete: bool)

  ghost predicate Follows(listing: seq<Id>, p: Point, q: Point) {
    && Fetched(listing, p.offset, p.page, p.settled, q.settled, p.complete)
    && Advanced(p.head, p.offset, p.page, p.complete) == (q.head, q.offset, true)
  }

  ghost predicate FollowsAt(listing: seq<Id>, run: seq<Point>, i: nat)
    requires 0 < i < |run|
  {
    Follows(listing, run[i - 1], run[i])
  }

  /** The points of one run over one listing, from metadata that was true of it. */
  ghost predicate IsRun(listing: seq<Id>, run: seq<Point>, saved: Saved, pageSize: nat) {
    && Unique(listing) && run != []
    && run[0].head == Begin(saved, pageSize) && run[0].offset == 0 && SafeFor(saved, listing, run[0].settled)
    && forall i :: 0 < i < |run| ==> FollowsAt(listing, run, i)
  }

  /** What one page does to where a run stands. */
  ghost predicate Turns(listing: seq<Id>, p: Point, q: Point) {
    var next := p.offset + p.page.entries;
    && Rank(q.head.mode) <= Rank(p.head.mode) && next <= |listing| && q.offset <= |listing|
    && (p.page.entries == 0 ==> q.offset < next)
    && (q.offset > next ==> AllSettled(listing, next, q.offset, q.settled))
    && (q.offset < next ==> p.head.mode == Probing && q.head.mode == Backlog && q.head.realigned)
  }

  lemma TurnKeeps(listing: seq<Id>, p: Point, q: Point, s: nat)
    requires Unique(listing) && Running(p.head, listing, p.settled, s, p.offset) && Follows(listing, p, q)
    ensures Running(q.head, listing, q.settled, s, q.offset)
    ensures Turns(listing, p, q)
  {
    AdvanceKeeps(p.head, listing, p.settled, s, p.offset, p.page, q.settled, p.complete, (q.head, q.offset, true));
  }

  lemma {:induction false} RunStays(listing: seq<Id>, run: seq<Point>, saved: Saved, pageSize: nat, i: nat) returns (s: nat)
    requires IsRun(listing, run, saved, pageSize) && i < |run|
    ensures Running(run[i].head, listing, run[i].settled, s, run[i].offset)
    ensures i > 0 ==> Turns(listing, run[i - 1], run[i])
  {
    if i == 0 {
      s := BeginIsRunning(saved, pageSize, listing, run[0].settled);
    } else {
      s := RunStays(listing, run, saved, pageSize, i - 1);
      assert FollowsAt(listing, run, i);
      TurnKeeps(listing, run[i - 1], run[i], s);
    }
  }

  lemma RunTurns(listing: seq<Id>, run: seq<Point>, saved: Saved, pageSize: nat, i: nat)
    requires IsRun(listing, run, saved, pageSize) && 0 < i < |run|
    ensures Turns(listing, run[i - 1], run[i])
  {
    var s := RunStays(listing, run, saved, pageSize, i);
  }

  /** The pages a run can still fetch. */
  ghost function Ahead(listing: seq<Id>, p: Point): int {
    |listing| - p.offset
    + match p.head.mode
      case Scanning => 2 * |listing| + 2
      case Probing => |listing| + 1
      case _ => 0
  }

  /** A run fetches at most about three times as many pages as its listing has entries, so it stops. */
  lemma {:induction false} RunStops(listing: seq<Id>, run: seq<Point>, saved: Saved, pageSize: nat)
    requires IsRun(listing, run, saved, pageSize)
    ensures |run| <= 3 * |listing| + 3
  {
    RunGetsAhead(listing, run, saved, pageSize, |run| - 1);
    if |run| > 1 {
      RunTurns(listing, run, saved, pageSize, |run| - 1);
    }
  }

  lemma {:induction false} RunGetsAhead(listing: seq<Id>, run: seq<Point>, saved: Saved, pageSize: nat, i: nat)
    requires IsRun(listing, run, saved, pageSize) && i < |run|
    ensures Ahead(listing, run[i]) + i <= 3 * |listing| + 2
  {
    if i > 0 {
      RunGetsAhead(listing, run, saved, pageSize, i - 1);
      RunTurns(listing, run, saved, pageSize, i);
    }
  }

  /** The run went back to come to its `i`-th point. */
  ghost predicate JumpsBack(run: seq<Point>, i: nat)
    requires 0 < i < |run|
  {
    run[i].offset < run[i - 1].offset + run[i - 1].page.entries
  }

  lemma {:induction false} RankOnlyFalls(listing: seq<Id>, run: seq<Point>, saved: Saved, pageSize: nat, i: nat, j: nat)
    requires IsRun(listing, run, saved, pageSize) && i <= j < |run|
    ensures Rank(run[j].head.mode) <= Rank(run[i].head.mode)
  {
    if i < j {
      RankOnlyFalls(listing, run, saved, pageSize, i, j - 1);
      RunTurns(listing, run, saved, pageSize, j);
    }
  }

  /** A run jumps back at most once, and then from the page where it looked for the saved tail. */
  lemma {:induction false} RunJumpsBackOnce(listing: seq<Id>, run: seq<Point>, saved: Saved, pageSize: nat, i: nat, j: nat)
    requires IsRun(listing, run, saved, pageSize) && 0 < i < |run| && 0 < j < |run|
    requires JumpsBack(run, i) && JumpsBack(run, j)
    ensures i == j && run[i - 1].head.mode == Probing && run[i].head.realigned
  {
    RunTurns(listing, run, saved, pageSize, i);
    RunTurns(listing, run, saved, pageSize, j);
    if i < j {
      RankOnlyFalls(listing, run, saved, pageSize, i, j - 1);
    } else if j < i {
      RankOnlyFalls(listing, run, saved, pageSize, j, i - 1);
    }
  }

  /** The entry was on a page of the run before its `n`-th point. */
  ghost predicate Listed(run: seq<Point>, n: nat, entry: nat)
    requires n <= |run|
  {
    exists k :: 0 <= k < n && run[k].offset <= entry < run[k].offset + run[k].page.entries
  }

  /** The entry is settled at the `n`-th point of the run, or was on a page before. */
  ghost predicate Known(listing: seq<Id>, run: seq<Point>, n: nat, entry: nat)
    requires n < |run|
  {
    entry < |listing| && (listing[entry] in run[n].settled || Listed(run, n, entry))
  }

  /** However a run jumps about, it leaves no entry behind that it did not list and that was not settled before. */
  lemma {:induction false} RunSkipsNothing(listing: seq<Id>, run: seq<Point>, saved: Saved, pageSize: nat, n: nat, entry: nat)
    requires IsRun(listing, run, saved, pageSize) && n < |run| && entry < run[n].offset
    ensures Known(listing, run, n, entry)
  {
    if n > 0 {
      RunTurns(listing, run, saved, pageSize, n);
      var (p, q) := (run[n - 1], run[n]);
      assert FollowsAt(listing, run, n);
      if p.offset <= entry < p.offset + p.page.entries {
        assert Listed(run, n, entry);
      } else if entry < p.offset {
        RunSkipsNothing(listing, run, saved, pageSize, n - 1, entry);
        if Listed(run, n - 1, entry) {
          var k :| 0 <= k < n - 1 && run[k].offset <= entry < run[k].offset + run[k].page.entries;
          assert Listed(run, n, entry);
        }
      }
    }
  }

  /** The source says where its listing ends: behind an empty page, or one without a next, there is nothing. */
  ghost predicate EndsTruly(listing: seq<Id>, p: Point) {
    (p.page.entries == 0 || p.page.next.NoCursor?) ==> p.offset + p.page.entries >= |listing|
  }

  /** A run that ends at the end of its listing has listed every entry that was not settled before. */
  lemma EndedRunIsWhole(listing: seq<Id>, run: seq<Point>, saved: Saved, pageSize: nat, entry: nat)
    requires IsRun(listing, run, saved, pageSize) && entry < |listing|
    requires
      var p := run[|run| - 1];
      EndsTruly(listing, p) && !Advanced(p.head, p.offset, p.page, p.complete).2
    ensures listing[entry] in run[|run| - 1].settled || Listed(run, |run|, entry)
  {
    var last := |run| - 1;
    if entry < run[last].offset {
      RunSkipsNothing(listing, run, saved, pageSize, last, entry);
      if Listed(run, last, entry) {
        var k :| 0 <= k < last && run[k].offset <= entry < run[k].offset + run[k].page.entries;
        assert Listed(run, |run|, entry);
      }
    } else {
      assert run[last].offset <= entry < run[last].offset + run[last].page.entries;
    }
  }
}
