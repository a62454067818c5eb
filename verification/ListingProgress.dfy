/** How far a newest-first run gets, and where the next one takes up from there (_listing_head.py, _listing_position.py). */
module ListingProgress {
  import opened ListingHead
  import opened ListingPosition
  import opened ListingSafety

  // ----- Pages one after another

  /** The run after the pages, where it goes on, and whether it does. */
  function Paged(h: Head, offset: nat, visits: seq<Visit>): (Head, nat, bool) {
    if visits == [] then (h, offset, true)
    else
      var last := |visits| - 1;
      var before := Paged(h, offset, visits[..last]);
      if before.2 then Advanced(before.0, before.1, visits[last].page, visits[last].complete) else before
  }

  /** The last page with an unsettled record. */
  function LastUnsettled(visits: seq<Visit>): (r: Option<nat>)
    ensures r.None? ==> forall i :: 0 <= i < |visits| ==> visits[i].complete
    ensures r.Some? ==> r.value < |visits| && !visits[r.value].complete
    ensures r.Some? ==> forall i :: r.value < i < |visits| ==> visits[i].complete
  {
    if visits == [] then None
    else if !visits[|visits| - 1].complete then Some(|visits| - 1)
    else LastUnsettled(visits[..|visits| - 1])
  }

  /** As many of the first ids as are kept. */
  ghost predicate AreFirst(kept: seq<Id>, ids: seq<Id>) {
    kept <= ids && |kept| == if |ids| < HEAD_ID_LIMIT then |ids| else HEAD_ID_LIMIT
  }

  /** As many of the last ids as are kept. */
  ghost predicate AreLast(kept: seq<Id>, ids: seq<Id>) {
    && |kept| == (if |ids| < HEAD_ID_LIMIT then |ids| else HEAD_ID_LIMIT)
    && kept == ids[|ids| - |kept|..]
  }

  /** The cursor names the entry behind so many; none names the first. */
  ghost predicate Names(cursor: Cursor, entries: nat) {
    if entries == 0 then cursor == NoCursor else cursor == Decimal(entries)
  }

  lemma {:induction false} PagesGrow(visits: seq<Visit>)
    requires GoesThrough(visits)
    ensures Entries(visits) >= |visits|
  {
    if visits != [] {
      PagesGrow(visits[..|visits| - 1]);
    }
  }

  lemma {:induction false} OnePageMore(visits: seq<Visit>, visit: Visit, more: seq<Visit>)
    requires more == visits + [visit]
    ensures Entries(more) == Entries(visits) + visit.page.entries && more[..|visits|] == visits
    ensures forall i :: 0 <= i <= |visits| ==> more[..i] == visits[..i]
    ensures SettledPages(more) == if SettledPages(visits) == |visits| && visit.complete then |more| else SettledPages(visits)
    ensures LastUnsettled(more) == if visit.complete then LastUnsettled(visits) else Some(|visits|)
  {
    assert more[..|more| - 1] == visits;
    SettledPagesOfMore(visits, visit);
  }

  // ----- What a scan from the top has noted

  /** The ids of the first page, how far every page settled, and the ids up to there. */
  ghost predicate Notes(h: Head, visits: seq<Visit>) {
    var k := SettledPages(visits);
    && (if visits == [] then h.freshIds == [] else AreFirst(h.freshIds, visits[0].page.ids))
    && h.scanSettled == (k == |visits|) && h.scanOffset == Entries(visits[..k])
    && (if k == 0 then h.scanTail == [] else AreLast(h.scanTail, visits[k - 1].page.ids))
  }

  lemma {:induction false} ScanNotes(h: Head, visits: seq<Visit>, visit: Visit, more: seq<Visit>, scanned: Head)
    requires Notes(h, visits) && GoesThrough(visits) && more == visits + [visit]
    requires scanned == Scanned(h, Entries(visits), visit.page.ids, visit.page.entries, visit.complete)
    ensures Notes(scanned, more)
  {
    OnePageMore(visits, visit, more);
    PagesGrow(visits);
    assert more[..|more|] == more && visits[..|visits|] == visits;
  }

  /** The metadata says what a scan of the pages says: where the first unsettled page begins, and what was on the pages
      before it and on the first one. */
  ghost predicate Tells(saved: Saved, visits: seq<Visit>)
    requires visits != []
  {
    var k := SettledPages(visits);
    && AreFirst(saved.headIds, visits[0].page.ids) && saved.headOffset == 0
    && Names(saved.cursor, Entries(visits[..k]))
    && (if k == 0 then saved.tailIds == [] else AreLast(saved.tailIds, visits[k - 1].page.ids))
  }

  lemma AdoptedTells(h: Head, visits: seq<Visit>)
    requires Notes(h, visits) && visits != []
    ensures Tells(Adopted(h).saved, visits)
  {
  }

  // ----- A run without saved ids

  ghost predicate Rescans(h: Head, offset: nat, visits: seq<Visit>) {
    h.mode == Rescan && offset == Entries(visits) && Notes(h, visits) && (visits != [] ==> Tells(h.saved, visits))
  }

  /** In a rescan every page adopts what the scan has noted. */
  lemma {:induction false} RescanAdvances(h: Head, offset: nat, page: Page, complete: bool, scanned: Head, step: (Head, nat, bool))
    requires h.mode == Rescan && page.entries > 0 && scanned == Scanned(h, offset, page.ids, page.entries, complete)
    requires step == Advanced(h, offset, page, complete)
    ensures step.0.(saved := Adopted(scanned).saved) == Adopted(scanned)
    ensures step.0.saved.(truncated := scanned.saved.truncated) == Adopted(scanned).saved
    ensures step.2 == !page.next.NoCursor?
    ensures if step.2 then step.1 == offset + page.entries else !step.0.saved.truncated
  {
  }

  lemma {:induction false} RescanGoesOn(h: Head, offset: nat, visits: seq<Visit>, visit: Visit, more: seq<Visit>, step: (Head, nat, bool))
    requires Rescans(h, offset, visits) && GoesThrough(visits)
    requires more == visits + [visit] && visit.page.entries > 0
    requires step == Advanced(h, offset, visit.page, visit.complete)
    ensures Tells(step.0.saved, more) && step.0.mode == Rescan && step.2 == !visit.page.next.NoCursor?
    ensures if step.2 then Rescans(step.0, step.1, more) else !step.0.saved.truncated
  {
    var scanned := Scanned(h, offset, visit.page.ids, visit.page.entries, visit.complete);
    ScanNotes(h, visits, visit, more, scanned);
    AdoptedTells(scanned, more);
    OnePageMore(visits, visit, more);
    RescanAdvances(h, offset, visit.page, visit.complete, scanned, step);
  }

  lemma {:induction false} RescanStays(h: Head, visits: seq<Visit>)
    requires Rescans(h, 0, []) && GoesThrough(visits)
    ensures Paged(h, 0, visits).2 && Rescans(Paged(h, 0, visits).0, Paged(h, 0, visits).1, visits)
  {
    if visits != [] {
      var (before, visit) := (visits[..|visits| - 1], visits[|visits| - 1]);
      assert visits == before + [visit];
      RescanStays(h, before);
      var run := Paged(h, 0, before);
      RescanGoesOn(run.0, run.1, before, visit, visits, Paged(h, 0, visits));
    }
  }

  lemma {:induction false} RescanSaves(h: Head, visits: seq<Visit>)
    requires Rescans(h, 0, []) && visits != [] && GoesThrough(visits[..|visits| - 1])
    requires visits[|visits| - 1].page.entries > 0
    ensures Tells(Paged(h, 0, visits).0.saved, visits) && Paged(h, 0, visits).0.mode == Rescan
    ensures Paged(h, 0, visits).2 == !visits[|visits| - 1].page.next.NoCursor?
    ensures if Paged(h, 0, visits).2 then Paged(h, 0, visits).1 == Entries(visits) else !Paged(h, 0, visits).0.saved.truncated
  {
    var (before, visit) := (visits[..|visits| - 1], visits[|visits| - 1]);
    assert visits == before + [visit];
    RescanStays(h, before);
    var run := Paged(h, 0, before);
    RescanGoesOn(run.0, run.1, before, visit, visits, Paged(h, 0, visits));
  }

  lemma EmptyChangesNothing(h: Head, offset: nat, empty: Page, complete: bool)
    requires h.mode == Rescan && empty.entries == 0
    ensures Advanced(h, offset, empty, complete) == (h.(saved := h.saved.(truncated := false)), offset, false)
  {
  }

  /**
   * A run that finds nothing saved keeps its place: whatever pages it gets, the last of the listing or not, the saved
   * cursor names the entry where the first unsettled page begins, the tail is the end of the page before it, and the
   * head is the beginning of the first page. An empty page at the end changes none of it.
   */
  lemma PlainScanSaves(saved: Saved, pageSize: nat, visits: seq<Visit>, empty: Page, complete: bool)
    requires saved.headIds == [] && visits != [] && GoesThrough(visits[..|visits| - 1])
    requires visits[|visits| - 1].page.entries > 0 && empty.entries == 0
    ensures
      var run := Paged(Begin(saved, pageSize), 0, visits);
      && Tells(run.0.saved, visits) && run.2 == !visits[|visits| - 1].page.next.NoCursor?
      && (run.2 ==> run.1 == Entries(visits))
      && Tells(Advanced(run.0, run.1, empty, complete).0.saved, visits)
      && !Advanced(run.0, run.1, empty, complete).0.saved.truncated && (!run.2 ==> !run.0.saved.truncated)
  {
    RescanSaves(Begin(saved, pageSize), visits);
    var run := Paged(Begin(saved, pageSize), 0, visits);
    EmptyChangesNothing(run.0, run.1, empty, complete);
  }

  /** A run whose cursor the source rejects scans from the top, whatever was saved before. */
  lemma RejectedRunScans(saved: Saved, pageSize: nat, visits: seq<Visit>, empty: Page, complete: bool)
    requires visits != [] && GoesThrough(visits[..|visits| - 1]) && visits[|visits| - 1].page.entries > 0
    requires empty.entries == 0
    ensures Cleared(saved) == Saved(NoCursor, saved.truncated, [], 0, [])
    ensures
      var run := Paged(Begin(Cleared(saved), pageSize), 0, visits);
      Tells(run.0.saved, visits) && (run.2 ==> run.1 == Entries(visits))
  {
    PlainScanSaves(Cleared(saved), pageSize, visits, empty, complete);
  }

  /** A run that comes to the end of its listing no longer says that the source stopped at its cap. */
  lemma {:induction false} EndClearsTheCap(h: Head, offset: nat, page: Page, complete: bool)
    requires !Advanced(h, offset, page, complete).2
    ensures !Advanced(h, offset, page, complete).0.saved.truncated
  {
  }

  // ----- A run that looks for what an earlier one saved

  /** The run still has what it was told, and has not come to the end of the saved ids. */
  ghost predicate LooksFor(h: Head, saved: Saved, pageSize: nat) {
    && h.mode == Scanning && h.saved == saved && h.pageSize == pageSize
    && h.savedIds == saved.headIds && h.savedOffset == saved.headOffset && h.savedBacklog == DecimalOffset(saved.cursor)
    && forall id :: id in h.savedTail <==> id in saved.tailIds
  }

  /** Noting the scan, what is unsettled or the shift leaves what the run was told as it was. */
  lemma {:induction false} NotingKeeps(h: Head, saved: Saved, pageSize: nat, offset: nat, page: Page, complete: bool, found: Head)
    requires LooksFor(h, saved, pageSize)
    requires found == Found(Scanned(h, offset, page.ids, page.entries, complete), offset, page.ids, complete)
    ensures LooksFor(found, saved, pageSize)
  {
    ScanLeavesTheRest(h, offset, page.ids, page.entries, complete);
  }

  lemma {:induction false} FoundNotes(h: Head, visits: seq<Visit>, offset: nat, page: Page, complete: bool)
    requires Notes(h, visits)
    ensures Notes(Found(h, offset, page.ids, complete), visits)
  {
  }

  lemma {:induction false} LocatesNothing(savedIds: seq<Id>, savedOffset: nat, at: nat, ids: seq<Id>)
    requires forall i :: 0 <= i < |ids| ==> ids[i] !in savedIds
    ensures Located(savedIds, savedOffset, at, ids) == None
    decreases |ids|
  {
    if ids != [] {
      LocatesNothing(savedIds, savedOffset, at + 1, ids[1..]);
    }
  }

  /** The pages show none of the ids. */
  ghost predicate ShowsNone(visits: seq<Visit>, ids: seq<Id>) {
    forall v :: 0 <= v < |visits| ==> forall i :: 0 <= i < |visits[v].page.ids| ==> visits[v].page.ids[i] !in ids
  }

  ghost predicate Misses(h: Head, saved: Saved, pageSize: nat, offset: nat, visits: seq<Visit>) {
    LooksFor(h, saved, pageSize) && h.shift == None && offset == Entries(visits) && Notes(h, visits)
  }

  lemma {:induction false} MissIsObserved(h: Head, offset: nat, page: Page, complete: bool, scanned: Head, found: Head)
    requires h.mode == Scanning && h.shift == None
    requires forall i :: 0 <= i < |page.ids| ==> page.ids[i] !in h.savedIds
    requires scanned == Scanned(h, offset, page.ids, page.entries, complete)
    requires found == Found(scanned, offset, page.ids, complete)
    ensures Observed(h, offset, page.ids, page.entries, complete) == (found, offset + page.entries)
    ensures found.shift == None && found.mode == Scanning
  {
    ScanLeavesTheRest(h, offset, page.ids, page.entries, complete);
    LocatesNothing(h.savedIds, h.savedOffset, offset, page.ids);
    ObservedByMode(h, offset, page, complete);
  }

  /** A page with none of the saved ids. */
  lemma {:induction false} MissGoesOn(h: Head, saved: Saved, pageSize: nat, offset: nat, visits: seq<Visit>, visit: Visit,
                                      more: seq<Visit>, scanned: Head, found: Head, next: nat)
    requires Misses(h, saved, pageSize, offset, visits) && GoesThrough(visits) && more == visits + [visit]
    requires forall i :: 0 <= i < |visit.page.ids| ==> visit.page.ids[i] !in saved.headIds
    requires scanned == Scanned(h, offset, visit.page.ids, visit.page.entries, visit.complete)
    requires found == Found(scanned, offset, visit.page.ids, visit.complete) && next == offset + visit.page.entries
    ensures Misses(found, saved, pageSize, next, more)
  {
    ScanNotes(h, visits, visit, more, scanned);
    OnePageMore(visits, visit, more);
    NotingKeeps(h, saved, pageSize, offset, visit.page, visit.complete, found);
    FoundNotes(scanned, more, offset, visit.page, visit.complete);
    MissIsObserved(h, offset, visit.page, visit.complete, scanned, found);
  }

  /** One more page with none of the saved ids: the run goes on, or ends and adopts its own scan. */
  lemma {:induction false} MissAdvances(h: Head, saved: Saved, pageSize: nat, offset: nat, visits: seq<Visit>, visit: Visit,
                                        more: seq<Visit>, step: (Head, nat, bool))
    requires Misses(h, saved, pageSize, offset, visits) && GoesThrough(visits) && more == visits + [visit]
    requires forall i :: 0 <= i < |visit.page.ids| ==> visit.page.ids[i] !in saved.headIds
    requires visit.page.entries > 0 && step == Advanced(h, offset, visit.page, visit.complete)
    ensures step.2 == !visit.page.next.NoCursor?
    ensures if step.2 then Misses(step.0, saved, pageSize, step.1, more) else Tells(step.0.saved, more)
  {
    var scanned := Scanned(h, offset, visit.page.ids, visit.page.entries, visit.complete);
    var found, next := Found(scanned, offset, visit.page.ids, visit.complete), offset + visit.page.entries;
    MissGoesOn(h, saved, pageSize, offset, visits, visit, more, scanned, found, next);
    MissIsAdvanced(h, offset, visit.page, visit.complete, scanned, found, next, step);
    MissTurns(found, saved, pageSize, offset, next, more, visit.page, step);
  }

  lemma MissIsAdvanced(h: Head, offset: nat, page: Page, complete: bool, scanned: Head, found: Head, next: nat,
                       step: (Head, nat, bool))
    requires h.mode == Scanning && h.shift == None && page.entries > 0
    requires forall i :: 0 <= i < |page.ids| ==> page.ids[i] !in h.savedIds
    requires scanned == Scanned(h, offset, page.ids, page.entries, complete)
    requires found == Found(scanned, offset, page.ids, complete) && next == offset + page.entries
    requires step == Advanced(h, offset, page, complete)
    ensures step == if page.next.NoCursor? then EndedAt(found, offset, next) else (found, next, true)
  {
    MissIsObserved(h, offset, page, complete, scanned, found);
    AdvancedBehind(h, offset, page, complete, found, next, step);
  }

  lemma MissTurns(after: Head, saved: Saved, pageSize: nat, offset: nat, next: nat, more: seq<Visit>, page: Page, step: (Head, nat, bool))
    requires Misses(after, saved, pageSize, next, more) && more != []
    requires step == if page.next.NoCursor? then EndedAt(after, offset, next) else (after, next, true)
    ensures step.2 == !page.next.NoCursor?
    ensures if step.2 then Misses(step.0, saved, pageSize, step.1, more) else Tells(step.0.saved, more)
  {
    EndAdopts(after, offset, next, more);
  }

  /** A page with entries is observed, and ends the listing if nothing follows it. */
  lemma AdvancedBehind(h: Head, offset: nat, page: Page, complete: bool, after: Head, next: nat, step: (Head, nat, bool))
    requires page.entries > 0 && Observed(h, offset, page.ids, page.entries, complete) == (after, next)
    requires step == Advanced(h, offset, page, complete)
    ensures step == if page.next.NoCursor? then EndedAt(after, offset, offset + page.entries) else (after, next, true)
  {
  }

  lemma EndAdopts(h: Head, offset: nat, end: nat, visits: seq<Visit>)
    requires h.mode == Scanning && Notes(h, visits) && visits != []
    ensures !EndedAt(h, offset, end).2 && Tells(EndedAt(h, offset, end).0.saved, visits)
  {
    AdoptedTells(h, visits);
  }

  lemma {:induction false} MissesStay(h: Head, saved: Saved, pageSize: nat, visits: seq<Visit>)
    requires Misses(h, saved, pageSize, 0, []) && GoesThrough(visits) && ShowsNone(visits, saved.headIds)
    ensures Paged(h, 0, visits).2 && Misses(Paged(h, 0, visits).0, saved, pageSize, Paged(h, 0, visits).1, visits)
  {
    if visits != [] {
      var (before, visit) := (visits[..|visits| - 1], visits[|visits| - 1]);
      assert visits == before + [visit];
      MissesStay(h, saved, pageSize, before);
      var run := Paged(h, 0, before);
      MissAdvances(run.0, saved, pageSize, run.1, before, visit, visits, Paged(h, 0, visits));
    }
  }

  lemma {:induction false} MissSaves(h: Head, saved: Saved, pageSize: nat, visits: seq<Visit>) returns (run: (Head, nat, bool))
    requires Misses(h, saved, pageSize, 0, []) && ShowsNone(visits, saved.headIds)
    requires visits != [] && GoesThrough(visits[..|visits| - 1]) && visits[|visits| - 1].page.entries > 0
    ensures run == Paged(h, 0, visits) && run.2 == !visits[|visits| - 1].page.next.NoCursor?
    ensures if run.2 then Misses(run.0, saved, pageSize, run.1, visits) else Tells(run.0.saved, visits)
  {
    var (before, visit) := (visits[..|visits| - 1], visits[|visits| - 1]);
    assert visits == before + [visit];
    MissesStay(h, saved, pageSize, before);
    var begun := Paged(h, 0, before);
    run := Paged(h, 0, visits);
    MissAdvances(begun.0, saved, pageSize, begun.1, before, visit, visits, run);
  }

  /** When the listing ends and no saved id was on its pages, the metadata is rebuilt from the run's own scan, as if
      nothing had been saved, whether the end is the last page or an empty one behind it. */
  lemma UnfoundScanSaves(saved: Saved, pageSize: nat, visits: seq<Visit>, empty: Page, complete: bool)
    requires saved.headIds != [] && ShowsNone(visits, saved.headIds)
    requires visits != [] && GoesThrough(visits[..|visits| - 1]) && visits[|visits| - 1].page.entries > 0
    requires empty.entries == 0
    ensures
      var run := Paged(Begin(saved, pageSize), 0, visits);
      && run.2 == !visits[|visits| - 1].page.next.NoCursor?
      && (run.2 ==> run.0.saved == saved && !Advanced(run.0, run.1, empty, complete).2
                    && Tells(Advanced(run.0, run.1, empty, complete).0.saved, visits))
      && (!run.2 ==> Tells(run.0.saved, visits))
  {
    var run := MissSaves(Begin(saved, pageSize), saved, pageSize, visits);
    if run.2 {
      EndAdopts(run.0, run.1, run.1, visits);
    }
  }

  // ----- A run that comes to what an earlier one saved

  /** The pages show the listing from its top on, every entry with its id. */
  ghost predicate Shown(listing: seq<Id>, visits: seq<Visit>) {
    forall v :: 0 <= v < |visits| ==> ShowsPage(listing, Entries(visits[..v]), visits[v].page)
  }

  ghost predicate ShowsPage(listing: seq<Id>, offset: nat, page: Page) {
    |page.ids| == page.entries && Stands(listing, offset, page.ids)
  }

  /** A page that shows any of the saved ids tells how far they have moved; no other page does. */
  lemma {:induction false} LocatedIs(savedIds: seq<Id>, savedOffset: nat, listing: seq<Id>, s: nat, at: nat, ids: seq<Id>)
    requires Unique(listing) && Stands(listing, s + savedOffset, savedIds) && Stands(listing, at, ids) && savedIds != []
    ensures Located(savedIds, savedOffset, at, ids)
            == if ids != [] && at < s + savedOffset + |savedIds| && s + savedOffset < at + |ids| then Some(s) else None
    decreases |ids|
  {
    if ids != [] {
      var k := SavedIndex(savedIds, ids[0]);
      assert ids[0] == listing[at];
      if k.Some? {
        assert listing[s + savedOffset + k.value] == savedIds[k.value];
      }
      if s + savedOffset <= at < s + savedOffset + |savedIds| {
        assert savedIds[at - s - savedOffset] == listing[at] && savedIds[at - s - savedOffset] in savedIds;
      }
      assert forall i :: 0 <= i < |ids[1..]| ==> ids[1..][i] == ids[i + 1] == listing[at + 1 + i];
      LocatedIs(savedIds, savedOffset, listing, s, at + 1, ids[1..]);
    }
  }

  /** What is noted of the head is the end of the last page with an unsettled record, if there is one. */
  ghost predicate HeadOf(noted: Option<(nat, seq<Id>)>, visits: seq<Visit>) {
    match LastUnsettled(visits)
    case None => noted == None
    case Some(j) => noted.Some? && EndsPage(noted.value.0, noted.value.1, visits, j)
  }

  /** The ids are the last of the page, and stand where it ends. */
  ghost predicate EndsPage(at: nat, ids: seq<Id>, visits: seq<Visit>, j: nat)
    requires j < |visits|
  {
    AreLast(ids, visits[j].page.ids) && at + |ids| == Entries(visits[..j + 1])
  }

  /** Where the saved ids stand is known as soon as a page has shown the first of them. */
  ghost predicate Looks(h: Head, saved: Saved, pageSize: nat, s: nat, offset: nat, visits: seq<Visit>) {
    && LooksFor(h, saved, pageSize) && Notes(h, visits) && HeadOf(h.unsettledHead, visits) && h.backlogSettled
    && offset == Entries(visits) && h.shift == if s + saved.headOffset < offset then Some(s) else None
  }

  lemma {:induction false} HeadOfMore(noted: Option<(nat, seq<Id>)>, visits: seq<Visit>, visit: Visit, more: seq<Visit>, at: nat)
    requires HeadOf(noted, visits) && more == visits + [visit] && at + |Tail(visit.page.ids)| == Entries(more)
    ensures HeadOf(if visit.complete then noted else Some((at, Tail(visit.page.ids))), more)
  {
    OnePageMore(visits, visit, more);
    if visit.complete {
      if LastUnsettled(visits).Some? {
        EndsPageStill(noted.value.0, noted.value.1, visits, LastUnsettled(visits).value, visit, more);
      }
    } else {
      EndsLastPage(at, more);
    }
  }

  lemma {:induction false} EndsPageStill(at: nat, ids: seq<Id>, visits: seq<Visit>, j: nat, visit: Visit, more: seq<Visit>)
    requires more == visits + [visit] && j < |visits| && EndsPage(at, ids, visits, j)
    ensures EndsPage(at, ids, more, j)
  {
    assert more[..j + 1] == visits[..j + 1];
  }

  lemma {:induction false} EndsLastPage(at: nat, visits: seq<Visit>)
    requires visits != [] && at + |Tail(visits[|visits| - 1].page.ids)| == Entries(visits)
    ensures EndsPage(at, Tail(visits[|visits| - 1].page.ids), visits, |visits| - 1)
  {
    assert visits[..|visits|] == visits;
  }

  lemma {:induction false} FoundLooks(h: Head, saved: Saved, pageSize: nat, s: nat, listing: seq<Id>, offset: nat, visits: seq<Visit>,
                                      visit: Visit, more: seq<Visit>, scanned: Head, found: Head, next: nat)
    requires Looks(h, saved, pageSize, s, offset, visits) && GoesThrough(visits) && more == visits + [visit]
    requires Unique(listing) && saved.headIds != [] && Stands(listing, s + saved.headOffset, saved.headIds)
    requires ShowsPage(listing, offset, visit.page) && visit.page.entries > 0
    requires scanned == Scanned(h, offset, visit.page.ids, visit.page.entries, visit.complete)
    requires found == Found(scanned, offset, visit.page.ids, visit.complete) && next == offset + visit.page.entries
    ensures Looks(found, saved, pageSize, s, next, more)
  {
    ScanNotes(h, visits, visit, more, scanned);
    OnePageMore(visits, visit, more);
    NotingKeeps(h, saved, pageSize, offset, visit.page, visit.complete, found);
    FoundNotes(scanned, more, offset, visit.page, visit.complete);
    ScanLeavesTheRest(h, offset, visit.page.ids, visit.page.entries, visit.complete);
    HeadOfMore(h.unsettledHead, visits, visit, more, next - |Tail(visit.page.ids)|);
    FoundShift(scanned, saved, s, listing, offset, visit.page, visit.complete, next);
  }

  lemma {:induction false} FoundShift(h: Head, saved: Saved, s: nat, listing: seq<Id>, offset: nat, page: Page, complete: bool, next: nat)
    requires h.savedIds == saved.headIds && h.savedOffset == saved.headOffset && saved.headIds != []
    requires h.shift == if s + saved.headOffset < offset then Some(s) else None
    requires Unique(listing) && Stands(listing, s + saved.headOffset, saved.headIds)
    requires ShowsPage(listing, offset, page) && page.entries > 0 && next == offset + page.entries
    ensures Found(h, offset, page.ids, complete).shift == if s + saved.headOffset < next then Some(s) else None
  {
    LocatedIs(saved.headIds, saved.headOffset, listing, s, offset, page.ids);
  }

  lemma {:induction false} LookGoesOn(h: Head, saved: Saved, pageSize: nat, s: nat, listing: seq<Id>, offset: nat, visits: seq<Visit>,
                                      visit: Visit, more: seq<Visit>, found: Head, next: nat)
    requires Looks(h, saved, pageSize, s, offset, visits) && GoesThrough(visits) && more == visits + [visit]
    requires Unique(listing) && saved.headIds != [] && Stands(listing, s + saved.headOffset, saved.headIds)
    requires ShowsPage(listing, offset, visit.page) && visit.page.entries > 0 && next == offset + visit.page.entries
    requires
      found == Found(Scanned(h, offset, visit.page.ids, visit.page.entries, visit.complete), offset, visit.page.ids, visit.complete)
    ensures Looks(found, saved, pageSize, s, next, more)
    ensures next < s + saved.headOffset + |saved.headIds| ==>
              Observed(h, offset, visit.page.ids, visit.page.entries, visit.complete) == (found, next)
    ensures next >= s + saved.headOffset + |saved.headIds| ==>
              Observed(h, offset, visit.page.ids, visit.page.entries, visit.complete)
              == HeadPassed(found, next, Tail(visit.page.ids))
  {
    var scanned := Scanned(h, offset, visit.page.ids, visit.page.entries, visit.complete);
    FoundLooks(h, saved, pageSize, s, listing, offset, visits, visit, more, scanned, found, next);
    LookIsObserved(h, offset, visit.page, visit.complete, found, next);
  }

  /** A page of the head is only noted until one passes the saved ids. */
  lemma {:induction false} LookIsObserved(h: Head, offset: nat, page: Page, complete: bool, found: Head, next: nat)
    requires h.mode == Scanning && next == offset + page.entries
    requires found == Found(Scanned(h, offset, page.ids, page.entries, complete), offset, page.ids, complete)
    ensures found.savedIds == h.savedIds && found.savedOffset == h.savedOffset
    ensures found.shift.None? || next < h.savedOffset + |h.savedIds| + found.shift.value ==>
              Observed(h, offset, page.ids, page.entries, complete) == (found, next)
    ensures found.shift.Some? && next >= h.savedOffset + |h.savedIds| + found.shift.value ==>
              Observed(h, offset, page.ids, page.entries, complete) == HeadPassed(found, next, Tail(page.ids))
  {
    ScanLeavesTheRest(h, offset, page.ids, page.entries, complete);
    ObservedByMode(h, offset, page, complete);
  }

  lemma {:induction false} LooksStay(h: Head, saved: Saved, pageSize: nat, s: nat, listing: seq<Id>, visits: seq<Visit>)
    requires Looks(h, saved, pageSize, s, 0, []) && GoesThrough(visits) && Shown(listing, visits)
    requires Unique(listing) && saved.headIds != [] && Stands(listing, s + saved.headOffset, saved.headIds)
    requires Entries(visits) < s + saved.headOffset + |saved.headIds|
    ensures Paged(h, 0, visits).2 && Looks(Paged(h, 0, visits).0, saved, pageSize, s, Paged(h, 0, visits).1, visits)
  {
    if visits != [] {
      var (before, visit) := (visits[..|visits| - 1], visits[|visits| - 1]);
      assert visits == before + [visit];
      ShownBefore(listing, visits, before, visit);
      LooksStay(h, saved, pageSize, s, listing, before);
      var (run, step) := (Paged(h, 0, before), Paged(h, 0, visits));
      var found := Found(Scanned(run.0, run.1, visit.page.ids, visit.page.entries, visit.complete), run.1, visit.page.ids, visit.complete);
      var next := run.1 + visit.page.entries;
      LookGoesOn(run.0, saved, pageSize, s, listing, run.1, before, visit, visits, found, next);
      AdvancedBehind(run.0, run.1, visit.page, visit.complete, found, next, step);
    }
  }

  lemma ShownBefore(listing: seq<Id>, visits: seq<Visit>, before: seq<Visit>, visit: Visit)
    requires Shown(listing, visits) && visits == before + [visit]
    ensures Shown(listing, before) && ShowsPage(listing, Entries(before), visit.page)
    ensures Entries(visits) == Entries(before) + visit.page.entries
  {
    OnePageMore(before, visit, visits);
    assert visits[..|before|] == before;
    forall v | 0 <= v < |before|
      ensures ShowsPage(listing, Entries(before[..v]), before[v].page)
    {
      assert ShowsPage(listing, Entries(visits[..v]), visits[v].page) && visits[..v] == before[..v];
    }
  }

  /** The ids kept for the next run are the first page's, or those that end the last page with an unsettled record. */
  ghost predicate SavesHead(saved: Saved, visits: seq<Visit>)
    requires visits != []
  {
    match LastUnsettled(visits)
    case None => AreFirst(saved.headIds, visits[0].page.ids) && saved.headOffset == 0
    case Some(j) => EndsPage(saved.headOffset, saved.headIds, visits, j)
  }

  /** Behind the head the run jumps to the page that should show the saved tail, if that lies ahead, and otherwise pages on. */
  ghost predicate Resumes(after: Head, next: nat, saved: Saved, backlog: nat, pageSize: nat, end: nat, last: Page) {
    if saved.tailIds != [] && backlog > end + pageSize then
      && next == backlog - pageSize && after.mode == Probing && Names(after.saved.cursor, backlog) && after.saved.tailIds == saved.tailIds
      && after.headEnd == end && AreLast(after.headEndTail, last.ids)
    else
      && next == end && after.mode == Backlog && Names(after.saved.cursor, end) && AreLast(after.saved.tailIds, last.ids)
  }

  lemma {:induction false} HeadPassedResumes(h: Head, saved: Saved, backlog: nat, pageSize: nat, s: nat, end: nat, last: Page,
                                             step: (Head, nat))
    requires LooksFor(h, saved, pageSize) && h.shift == Some(s) && h.backlogSettled && backlog == DecimalOffset(saved.cursor) + s
    requires step == HeadPassed(h, end, Tail(last.ids))
    ensures step.0.backlogSettled && Resumes(step.0, step.1, saved, backlog, pageSize, end, last)
  {
    TailIsLast(last.ids);
    TailIdsAreThere(saved.tailIds, h.savedTail);
    JumpOrPage(h, saved, backlog, pageSize, s, end, last, Tail(last.ids), step);
  }

  lemma TailIsLast(ids: seq<Id>)
    ensures AreLast(Tail(ids), ids)
  {
  }

  lemma {:induction false} HeadPassedSaves(h: Head, end: nat, visits: seq<Visit>, tail: seq<Id>, step: (Head, nat))
    requires HeadOf(h.unsettledHead, visits) && Notes(h, visits) && visits != [] && h.shift.Some?
    requires step == HeadPassed(h, end, tail)
    ensures SavesHead(step.0.saved, visits)
  {
  }

  /** Where the run goes behind the head, as far as its own fields say. */
  lemma {:induction false} PassedIs(h: Head, end: nat, tail: seq<Id>, probe: int, step: (Head, nat))
    requires h.shift.Some? && probe == h.savedBacklog + h.shift.value - h.pageSize && step == HeadPassed(h, end, tail)
    ensures step.0.backlogSettled == h.backlogSettled
    ensures h.savedTail != {} && probe > end ==>
              && step.1 == probe && step.0.mode == Probing && step.0.saved.cursor == CursorAt(probe + h.pageSize)
              && step.0.saved.tailIds == h.saved.tailIds && step.0.headEnd == end && step.0.headEndTail == tail
    ensures !(h.savedTail != {} && probe > end) ==>
              step.1 == end && step.0.mode == Backlog && step.0.saved.cursor == CursorAt(end) && step.0.saved.tailIds == tail
  {
  }

  lemma {:induction false} JumpOrPage(h: Head, saved: Saved, backlog: nat, pageSize: nat, s: nat, end: nat, last: Page, tail: seq<Id>,
                                      step: (Head, nat))
    requires h.saved == saved && h.pageSize == pageSize && (h.savedTail == {} <==> saved.tailIds == [])
    requires h.savedBacklog + s == backlog && h.shift == Some(s) && AreLast(tail, last.ids) && h.backlogSettled
    requires step == HeadPassed(h, end, tail)
    ensures step.0.backlogSettled && Resumes(step.0, step.1, saved, backlog, pageSize, end, last)
  {
    PassedIs(h, end, tail, backlog - pageSize, step);
  }

  lemma TailIdsAreThere(ids: seq<Id>, tail: set<Id>)
    requires forall id :: id in tail <==> id in ids
    ensures tail == {} <==> ids == []
  {
    if ids != [] {
      assert ids[0] in tail;
    }
  }

  /** The last of the pages is the first that ends at or behind the saved ids. */
  ghost predicate PassesFirst(visits: seq<Visit>, headEnd: nat) {
    visits != [] && Entries(visits[..|visits| - 1]) < headEnd <= Entries(visits)
  }

  lemma {:induction false} BeginLooks(saved: Saved, pageSize: nat, s: nat)
    requires saved.headIds != []
    ensures Looks(Begin(saved, pageSize), saved, pageSize, s, 0, [])
  {
  }

  /** A page that passes the head ends the pages before the jump. */
  lemma {:induction false} LookPasses(run: (Head, nat), saved: Saved, pageSize: nat, s: nat, listing: seq<Id>, before: seq<Visit>,
                                      visit: Visit, visits: seq<Visit>, backlog: nat, end: nat, step: (Head, nat, bool))
    requires Looks(run.0, saved, pageSize, s, run.1, before) && GoesThrough(before) && visits == before + [visit]
    requires visit.page.entries > 0 && !visit.page.next.NoCursor?
    requires Unique(listing) && saved.headIds != [] && Stands(listing, s + saved.headOffset, saved.headIds)
    requires ShowsPage(listing, run.1, visit.page) && end == run.1 + visit.page.entries
    requires backlog == DecimalOffset(saved.cursor) + s
    requires end >= s + saved.headOffset + |saved.headIds|
    requires step == Advanced(run.0, run.1, visit.page, visit.complete)
    ensures step.2 && SavesHead(step.0.saved, visits) && step.0.backlogSettled
    ensures Resumes(step.0, step.1, saved, backlog, pageSize, end, visit.page)
  {
    var found := Found(Scanned(run.0, run.1, visit.page.ids, visit.page.entries, visit.complete), run.1, visit.page.ids, visit.complete);
    LookGoesOn(run.0, saved, pageSize, s, listing, run.1, before, visit, visits, found, end);
    var passed := HeadPassed(found, end, Tail(visit.page.ids));
    PassIsAdvanced(run.0, run.1, visit.page, visit.complete, passed, step);
    HeadPassedSaves(found, end, visits, Tail(visit.page.ids), passed);
    HeadPassedResumes(found, saved, backlog, pageSize, s, end, visit.page, passed);
  }

  lemma PassIsAdvanced(h: Head, offset: nat, page: Page, complete: bool, passed: (Head, nat), step: (Head, nat, bool))
    requires page.entries > 0 && !page.next.NoCursor? && step == Advanced(h, offset, page, complete)
    requires Observed(h, offset, page.ids, page.entries, complete) == passed
    ensures step == (passed.0, passed.1, true)
  {
    AdvancedBehind(h, offset, page, complete, passed.0, passed.1, step);
  }

  /**
   * A run whose saved ids now stand `s` entries lower: the first page that ends at or behind them saves this run's own
   * head, and the run goes on where the saved backlog now begins, a page before it to see the saved tail, or, if that
   * does not lie ahead or no tail was saved, at the next page.
   */
  lemma {:induction false} HeadIsPassed(saved: Saved, pageSize: nat, s: nat, listing: seq<Id>, visits: seq<Visit>, backlog: nat)
      returns (run: (Head, nat, bool))
    requires GoesThrough(visits) && Shown(listing, visits)
    requires Unique(listing) && saved.headIds != [] && Stands(listing, s + saved.headOffset, saved.headIds)
    requires PassesFirst(visits, s + saved.headOffset + |saved.headIds|) && backlog == DecimalOffset(saved.cursor) + s
    ensures run == Paged(Begin(saved, pageSize), 0, visits)
    ensures run.2 && SavesHead(run.0.saved, visits) && run.0.backlogSettled
    ensures Resumes(run.0, run.1, saved, backlog, pageSize, Entries(visits), visits[|visits| - 1].page)
  {
    var (h, before, visit) := (Begin(saved, pageSize), visits[..|visits| - 1], visits[|visits| - 1]);
    assert visits == before + [visit];
    assert GoesThrough(before) && !ListingEnds(visit.page);
    ShownBefore(listing, visits, before, visit);
    BeginLooks(saved, pageSize, s);
    LooksStay(h, saved, pageSize, s, listing, before);
    var begun := Paged(h, 0, before);
    run := Paged(h, 0, visits);
    LookPasses((begun.0, begun.1), saved, pageSize, s, listing, before, visit, visits, backlog, Entries(visits), run);
  }

  /**
   * After a scan of some pages and `grown` entries put on top, the next run jumps to where the scan's settled pages now
   * end, less a page, whenever that lies behind the page on which it passes the head; otherwise it pages on.
   */
  lemma {:induction false} NextRunJumps(kept: Saved, pageSize: nat, listing: seq<Id>, scan: seq<Visit>, grown: nat, moved: seq<Id>,
                                        visits: seq<Visit>, backlog: nat) returns (run: (Head, nat, bool))
    requires scan != [] && GoesThrough(scan) && Shown(listing, scan) && Tells(kept, scan)
    requires Unique(moved) && Stands(moved, grown, listing)
    requires GoesThrough(visits) && Shown(moved, visits) && PassesFirst(visits, grown + |kept.headIds|)
    requires backlog == Entries(scan[..SettledPages(scan)]) + grown
    ensures run == Paged(Begin(kept, pageSize), 0, visits) && run.2 && SavesHead(run.0.saved, visits)
    ensures SettledPages(scan) > 0 && backlog > Entries(visits) + pageSize ==>
              run.1 == backlog - pageSize && run.0.saved.cursor == Decimal(backlog)
    ensures SettledPages(scan) == 0 || backlog <= Entries(visits) + pageSize ==>
              run.1 == Entries(visits) && run.0.saved.cursor == Decimal(Entries(visits))
  {
    KeptHeadStands(listing, scan, kept, grown, moved);
    TellsBacklog(listing, kept, scan);
    PagesGrow(visits);
    run := HeadIsPassed(kept, pageSize, grown, moved, visits, backlog);
    ResumesThere(run.0, run.1, kept, backlog, pageSize, Entries(visits), visits[|visits| - 1].page);
  }

  lemma {:induction false} KeptHeadStands(listing: seq<Id>, scan: seq<Visit>, kept: Saved, grown: nat, moved: seq<Id>)
    requires scan != [] && GoesThrough(scan) && Shown(listing, scan) && Tells(kept, scan)
    requires Stands(moved, grown, listing)
    ensures kept.headIds != [] && kept.headOffset == 0 && Stands(moved, grown, kept.headIds)
  {
    assert ShowsPage(listing, Entries(scan[..0]), scan[0].page) && scan[..0] == [];
  }

  lemma {:induction false} TellsBacklog(listing: seq<Id>, kept: Saved, scan: seq<Visit>)
    requires scan != [] && GoesThrough(scan) && Shown(listing, scan) && Tells(kept, scan)
    ensures DecimalOffset(kept.cursor) == Entries(scan[..SettledPages(scan)])
    ensures kept.tailIds != [] <==> SettledPages(scan) > 0
  {
    var k := SettledPages(scan);
    if k > 0 {
      assert ShowsPage(listing, Entries(scan[..k - 1]), scan[k - 1].page);
    }
  }

  lemma ResumesThere(after: Head, next: nat, kept: Saved, backlog: nat, pageSize: nat, end: nat, last: Page)
    requires Resumes(after, next, kept, backlog, pageSize, end, last) && end > 0
    ensures kept.tailIds != [] && backlog > end + pageSize ==> next == backlog - pageSize && after.saved.cursor == Decimal(backlog)
    ensures kept.tailIds == [] || backlog <= end + pageSize ==> next == end && after.saved.cursor == Decimal(end)
  {
  }

  // ----- Behind the head

  /** Behind the head the saved cursor waits where the first unsettled page began. */
  ghost predicate Behind(h: Head, begun: Saved, start: nat, offset: nat, visits: seq<Visit>) {
    var k := SettledPages(visits);
    && h.mode == Backlog && offset == start + Entries(visits) && h.backlogSettled == (k == |visits|)
    && KeepsPlace(h.saved, begun, start, visits)
  }

  /** Settled pages move the saved cursor and tail to their end; the head stays as it was. */
  ghost predicate KeepsPlace(saved: Saved, begun: Saved, start: nat, visits: seq<Visit>) {
    var k := SettledPages(visits);
    && saved.headIds == begun.headIds && saved.headOffset == begun.headOffset
    && if k == 0 then saved.cursor == begun.cursor && saved.tailIds == begun.tailIds
       else Names(saved.cursor, start + Entries(visits[..k])) && AreLast(saved.tailIds, visits[k - 1].page.ids)
  }

  lemma {:induction false} BehindGoesOn(h: Head, begun: Saved, start: nat, offset: nat, visits: seq<Visit>, visit: Visit, more: seq<Visit>,
                                        scanned: Head, after: Head)
    requires Behind(h, begun, start, offset, visits) && more == visits + [visit] && visit.page.entries > 0
    requires scanned == Scanned(h, offset, visit.page.ids, visit.page.entries, visit.complete)
    requires after == BacklogObserved(scanned, offset + visit.page.entries, Tail(visit.page.ids), visit.complete)
    ensures Behind(after, begun, start, offset + visit.page.entries, more)
  {
    ScanLeavesTheRest(h, offset, visit.page.ids, visit.page.entries, visit.complete);
    OnePageMore(visits, visit, more);
    if SettledPages(more) == |more| {
      assert more[..|more|] == more;
      TailIsLast(visit.page.ids);
    } else {
      PlaceIsKept(h.saved, begun, start, visits, visit, more);
    }
  }

  lemma {:induction false} PlaceIsKept(saved: Saved, begun: Saved, start: nat, visits: seq<Visit>, visit: Visit, more: seq<Visit>)
    requires more == visits + [visit] && SettledPages(more) == SettledPages(visits) && KeepsPlace(saved, begun, start, visits)
    ensures KeepsPlace(saved, begun, start, more)
  {
    OnePageMore(visits, visit, more);
  }

  lemma {:induction false} BehindAdvances(h: Head, begun: Saved, start: nat, offset: nat, visits: seq<Visit>, visit: Visit, more: seq<Visit>,
                                          step: (Head, nat, bool))
    requires Behind(h, begun, start, offset, visits) && more == visits + [visit] && visit.page.entries > 0
    requires step == Advanced(h, offset, visit.page, visit.complete)
    ensures KeepsPlace(step.0.saved, begun, start, more) && step.2 == !visit.page.next.NoCursor?
    ensures step.2 ==> Behind(step.0, begun, start, step.1, more)
  {
    var scanned := Scanned(h, offset, visit.page.ids, visit.page.entries, visit.complete);
    var next := offset + visit.page.entries;
    var after := BacklogObserved(scanned, next, Tail(visit.page.ids), visit.complete);
    BehindGoesOn(h, begun, start, offset, visits, visit, more, scanned, after);
    BehindIsAdvanced(h, offset, visit.page, visit.complete, scanned, after, next, step);
    BehindTurns(after, begun, start, offset, next, more, visit.page, step);
  }

  lemma BehindTurns(after: Head, begun: Saved, start: nat, offset: nat, next: nat, more: seq<Visit>, page: Page, step: (Head, nat, bool))
    requires Behind(after, begun, start, next, more)
    requires step == if page.next.NoCursor? then EndedAt(after, offset, next) else (after, next, true)
    ensures KeepsPlace(step.0.saved, begun, start, more) && step.2 == !page.next.NoCursor?
    ensures step.2 ==> Behind(step.0, begun, start, step.1, more)
  {
  }

  lemma BehindIsAdvanced(h: Head, offset: nat, page: Page, complete: bool, scanned: Head, after: Head, next: nat,
                         step: (Head, nat, bool))
    requires h.mode == Backlog && page.entries > 0 && scanned == Scanned(h, offset, page.ids, page.entries, complete)
    requires next == offset + page.entries && after == BacklogObserved(scanned, next, Tail(page.ids), complete)
    requires step == Advanced(h, offset, page, complete)
    ensures step == if page.next.NoCursor? then EndedAt(after, offset, next) else (after, next, true)
  {
    ObservedByMode(h, offset, page, complete);
    AdvancedBehind(h, offset, page, complete, after, next, step);
  }

  lemma {:induction false} BehindStays(h: Head, start: nat, visits: seq<Visit>)
    requires h.mode == Backlog && h.backlogSettled && GoesThrough(visits)
    ensures Paged(h, start, visits).2 && Behind(Paged(h, start, visits).0, h.saved, start, Paged(h, start, visits).1, visits)
  {
    if visits != [] {
      var (before, visit) := (visits[..|visits| - 1], visits[|visits| - 1]);
      assert visits == before + [visit];
      BehindStays(h, start, before);
      var run := Paged(h, start, before);
      BehindAdvances(run.0, h.saved, start, run.1, before, visit, visits, Paged(h, start, visits));
    }
  }

  /** Behind the head a run keeps its place page by page, up to the end of its listing. */
  lemma {:induction false} BacklogKeepsPlace(h: Head, start: nat, visits: seq<Visit>)
    requires h.mode == Backlog && h.backlogSettled && visits != [] && GoesThrough(visits[..|visits| - 1])
    requires visits[|visits| - 1].page.entries > 0
    ensures KeepsPlace(Paged(h, start, visits).0.saved, h.saved, start, visits)
    ensures Paged(h, start, visits).2 == !visits[|visits| - 1].page.next.NoCursor?
  {
    var (before, visit) := (visits[..|visits| - 1], visits[|visits| - 1]);
    assert visits == before + [visit];
    BehindStays(h, start, before);
    var run := Paged(h, start, before);
    BehindAdvances(run.0, h.saved, start, run.1, before, visit, visits, Paged(h, start, visits));
  }

  /** A probe that finds some of the saved tail goes on behind its page: settled, the page is part of the backlog done; otherwise
      the backlog begins with it, and no tail is kept for it. */
  lemma ProbeKeepsPlace(h: Head, offset: nat, page: Page, complete: bool)
    requires h.mode == Probing && h.backlogSettled && page.entries > 0 && !page.next.NoCursor?
    requires exists i :: 0 <= i < |page.ids| && page.ids[i] in h.savedTail
    ensures
      var step := Advanced(h, offset, page, complete);
      && step.2 && step.1 == offset + page.entries && step.0.mode == Backlog && step.0.backlogSettled == complete
      && step.0.saved.headIds == h.saved.headIds && step.0.saved.headOffset == h.saved.headOffset
      && Names(step.0.saved.cursor, if complete then offset + page.entries else offset)
      && (if complete then AreLast(step.0.saved.tailIds, page.ids) else step.0.saved.tailIds == [])
  {
    var scanned := Scanned(h, offset, page.ids, page.entries, complete);
    ScanLeavesTheRest(h, offset, page.ids, page.entries, complete);
    ObservedByMode(h, offset, page, complete);
    TailIsFound(h.savedTail, page.ids);
    var step := ProbeObserved(scanned, offset, page.ids, offset + page.entries, complete);
    AdvancedBehind(h, offset, page, complete, step.0, step.1, Advanced(h, offset, page, complete));
  }

  lemma TailIsFound(tail: set<Id>, ids: seq<Id>)
    requires exists i :: 0 <= i < |ids| && ids[i] in tail
    ensures !(tail !! (set id | id in ids))
  {
    var i :| 0 <= i < |ids| && ids[i] in tail;
    assert ids[i] in (set id | id in ids);
  }
}
