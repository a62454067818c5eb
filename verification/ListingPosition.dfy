/** Where a run stands in its listing, and what it saves for the next run (_listing_position.py). */
module ListingPosition {
  import opened ListingHead

  /** One page: the ids on it, how many entries it held, and the cursor of the next page, if any. */
  datatype Page = Page(ids: seq<Id>, entries: nat, next: Cursor, truncated: bool)

  predicate ListingEnds(page: Page) {
    page.truncated || page.next.NoCursor? || page.entries == 0
  }

  // ----- Paging by cursor

  /** A cursor position's fields, with the metadata it shares. */
  datatype Place = Place(saved: Saved, byOffset: bool, settled: bool, cursor: Cursor)

  function OffsetOf(cursor: Cursor): Option<nat> {
    match cursor
    case NoCursor => Some(0)
    case Decimal(offset) => Some(offset)
    case Opaque(_) => None
  }

  function EndCursor(p: Place, page: Page): Cursor {
    match if p.byOffset then OffsetOf(p.cursor) else None
    case None => NoCursor
    case Some(offset) => CursorAt(offset + page.entries)
  }

  function Moved(p: Place, page: Page, complete: bool): (Place, bool) {
    var settled := p.settled && complete;
    if ListingEnds(page) then
      (p.(settled := settled,
          saved := p.saved.(cursor := if settled then EndCursor(p, page) else p.saved.cursor, truncated := false)), false)
    else
      (p.(settled := settled, cursor := page.next,
          saved := p.saved.(cursor := if settled then page.next else p.saved.cursor)), true)
  }

  function Truncated(saved: Saved): Saved {
    saved.(cursor := NoCursor, truncated := true)
  }

  function Restarted(p: Place): Place {
    p.(settled := true, cursor := NoCursor, saved := p.saved.(cursor := NoCursor))
  }

  /** A fetched page, and whether every record on it was settled. */
  datatype Visit = Visit(page: Page, complete: bool)

  /** The place after the pages, none of which ended the listing. */
  function Travelled(p: Place, visits: seq<Visit>): Place {
    if visits == [] then p
    else
      var last := |visits| - 1;
      Moved(Travelled(p, visits[..last]), visits[last].page, visits[last].complete).0
  }

  predicate GoesThrough(visits: seq<Visit>) {
    forall i :: 0 <= i < |visits| ==> !ListingEnds(visits[i].page)
  }

  /** How many pages were settled before the first that was not. */
  function SettledPages(visits: seq<Visit>): (k: nat)
    ensures k <= |visits| && (k < |visits| ==> !visits[k].complete)
    ensures forall i :: 0 <= i < k ==> visits[i].complete
  {
    if visits == [] || !visits[0].complete then 0 else 1 + SettledPages(visits[1..])
  }

  lemma {:induction false} SettledPagesOfMore(visits: seq<Visit>, visit: Visit)
    ensures SettledPages(visits + [visit])
            == if SettledPages(visits) == |visits| && visit.complete then |visits| + 1 else SettledPages(visits)
  {
    if visits == [] {
    } else {
      assert (visits + [visit])[1..] == visits[1..] + [visit];
      SettledPagesOfMore(visits[1..], visit);
    }
  }

  /** The cursor the `k`-th page of the journey was fetched at. */
  function FetchedAt(p: Place, visits: seq<Visit>, k: nat): Cursor
    requires k <= |visits|
  {
    if k == 0 then p.cursor else visits[k - 1].page.next
  }

  /** After the pages, whose first `k` settled, the place is `after`. */
  predicate Waits(p: Place, visits: seq<Visit>, k: nat, after: Place)
    requires k <= |visits|
  {
    && after.cursor == FetchedAt(p, visits, |visits|) && after.byOffset == p.byOffset
    && after.settled == (k == |visits|)
    && after.saved == p.saved.(cursor := if k == 0 then p.saved.cursor else FetchedAt(p, visits, k))
  }

  lemma WaitsOneMore(p: Place, visits: seq<Visit>, k: nat, after: Place, visit: Visit, next: nat)
    requires k <= |visits| && Waits(p, visits, k, after) && !ListingEnds(visit.page)
    requires next == if k == |visits| && visit.complete then |visits| + 1 else k
    ensures Waits(p, visits + [visit], next, Moved(after, visit.page, visit.complete).0)
  {
    assert FetchedAt(p, visits + [visit], k) == FetchedAt(p, visits, k);
  }

  /**
   * The saved cursor is that of the first page with an unsettled record, or of the page to come when every page
   * settled; before any page settled it is the one saved earlier.
   */
  lemma {:induction false} SavedCursorWaits(p: Place, visits: seq<Visit>)
    requires p.settled && GoesThrough(visits)
    ensures Waits(p, visits, SettledPages(visits), Travelled(p, visits))
  {
    if visits != [] {
      var last := |visits| - 1;
      var (before, visit) := (visits[..last], visits[last]);
      SavedCursorWaits(p, before);
      SettledPagesOfMore(before, visit);
      assert visits == before + [visit];
      WaitsOneMore(p, before, SettledPages(before), Travelled(p, before), visit, SettledPages(visits));
    }
  }

  /** A listing that ends saves a cursor past its end only if every page of the run settled. */
  lemma EndIsSavedWhenSettled(p: Place, visits: seq<Visit>, end: Visit)
    requires p.settled && GoesThrough(visits) && ListingEnds(end.page)
    ensures
      var (after, more) := Moved(Travelled(p, visits), end.page, end.complete);
      var k := SettledPages(visits + [end]);
      && !more && !after.saved.truncated
      && after.saved.cursor == if k == |visits| + 1 then EndCursor(Travelled(p, visits), end.page)
                               else if k == 0 then p.saved.cursor
                               else FetchedAt(p, visits, k)
  {
    SavedCursorWaits(p, visits);
    SettledPagesOfMore(visits, end);
  }

  /** The entries on the pages. */
  function Entries(visits: seq<Visit>): nat {
    if visits == [] then 0 else Entries(visits[..|visits| - 1]) + visits[|visits| - 1].page.entries
  }

  /** Each page of a listing by offset names the offset behind its entries as the next. */
  ghost predicate NamesOffsets(from: nat, visits: seq<Visit>) {
    forall k :: 0 < k <= |visits| ==> visits[k - 1].page.next == CursorAt(from + Entries(visits[..k]))
  }

  /** A settled listing by offset is left behind its last entry, where a later run finds what is put at its end; one whose
      cursors mean nothing to the pipeline is left at its first page. */
  lemma EndIsBehindTheEntries(p: Place, visits: seq<Visit>, end: Visit, from: nat)
    requires p.settled && GoesThrough(visits) && ListingEnds(end.page) && SettledPages(visits + [end]) == |visits| + 1
    requires p.cursor == CursorAt(from) && NamesOffsets(from, visits)
    ensures
      var after := Moved(Travelled(p, visits), end.page, end.complete).0;
      after.saved.cursor == if p.byOffset then CursorAt(from + Entries(visits) + end.page.entries) else NoCursor
  {
    var at := from + Entries(visits);
    EndIsSavedWhenSettled(p, visits, end);
    SettledPagesOfMore(visits, end);
    PlaceIsBehind(p, visits, from, at);
    EndCursorIs(Travelled(p, visits), end.page, at);
  }

  lemma {:induction false} PlaceIsBehind(p: Place, visits: seq<Visit>, from: nat, at: nat)
    requires p.settled && GoesThrough(visits) && p.cursor == CursorAt(from) && NamesOffsets(from, visits)
    requires at == from + Entries(visits)
    ensures Travelled(p, visits).cursor == CursorAt(at) && Travelled(p, visits).byOffset == p.byOffset
  {
    SavedCursorWaits(p, visits);
    assert visits[..|visits|] == visits;
  }

  lemma EndCursorIs(p: Place, page: Page, at: nat)
    requires p.cursor == CursorAt(at)
    ensures EndCursor(p, page) == if p.byOffset then CursorAt(at + page.entries) else NoCursor
  {
  }

  class CursorPosition {
    const metadata: Metadata
    const byOffset: bool
    var settled: bool
    var cursor: Cursor

    ghost function State(): Place
      reads this, metadata
    {
      Place(metadata.Value(), byOffset, settled, cursor)
    }

    constructor (shared: Metadata, start: Cursor, offsets: bool)
      ensures metadata == shared && State() == Place(old(shared.Value()), offsets, true, start)
    {
      metadata, byOffset := shared, offsets;
      settled, cursor := true, start;
    }

    /** Accounts for a page fetched at the cursor; returns whether the listing goes on. */
    method Advance(page: Page, complete: bool) returns (more: bool)
      modifies this, metadata
      ensures (State(), more) == Moved(old(State()), page, complete)
    {
      settled := settled && complete;
      if ListingEnds(page) {
        if settled {
          metadata.cursor := EndOf(page);
        }
        metadata.truncated := false;
        return false;
      }
      cursor := page.next;
      if settled {
        metadata.cursor := cursor;
      }
      return true;
    }

    method EndOf(page: Page) returns (end: Cursor)
      ensures end == EndCursor(State(), page)
    {
      var offset := if byOffset then OffsetOf(cursor) else None;
      if offset.None? || offset.value + page.entries == 0 {
        return NoCursor;
      }
      return Decimal(offset.value + page.entries);
    }

    method Truncate()
      modifies metadata
      ensures State() == old(State()).(saved := Truncated(old(State()).saved))
    {
      metadata.cursor, metadata.truncated := NoCursor, true;
    }

    method Restart()
      modifies this, metadata
      ensures State() == Restarted(old(State()))
    {
      settled := true;
      cursor := NoCursor;
      metadata.cursor := NoCursor;
    }
  }

  // ----- Paging newest first

  function EndedAt(h: Head, offset: nat, end: nat): (Head, nat, bool) {
    var (after, resumeAt) := Ended(h);
    if resumeAt.None? || resumeAt.value >= end then (after.(saved := after.saved.(truncated := false)), offset, false)
    else (after, resumeAt.value, true)
  }

  function Advanced(h: Head, offset: nat, page: Page, complete: bool): (Head, nat, bool) {
    if page.entries == 0 then EndedAt(h, offset, offset)
    else
      var (after, next) := Observed(h, offset, page.ids, page.entries, complete);
      if page.next.NoCursor? then EndedAt(after, offset, offset + page.entries) else (after, next, true)
  }

  function Cleared(saved: Saved): Saved {
    saved.(cursor := NoCursor, headIds := [], headOffset := 0, tailIds := [])
  }

  class NewestFirstPosition {
    const metadata: Metadata
    const pageSize: nat
    var head: NewestFirstCursor
    var offset: nat

    ghost predicate Valid()
      reads this
    {
      head.metadata == metadata && head.pageSize == pageSize
    }

    constructor (shared: Metadata, size: nat)
      ensures Valid() && fresh(head) && metadata == shared && pageSize == size
      ensures shared.Value() == old(shared.Value())
      ensures head.State() == Begin(shared.Value(), size) && offset == 0
    {
      metadata, pageSize := shared, size;
      head := new NewestFirstCursor(shared, size);
      offset := 0;
    }

    /** Accounts for a page fetched at the offset; returns whether the listing goes on. */
    method Advance(page: Page, complete: bool) returns (more: bool)
      requires Valid()
      modifies this, head, metadata
      ensures Valid() && head == old(head)
      ensures (head.State(), offset, more) == Advanced(old(head.State()), old(offset), page, complete)
    {
      if page.entries == 0 {
        more := EndListing(offset);
        return;
      }
      var next := head.ObservePage(offset, page.ids, page.entries, complete);
      if page.next == NoCursor {
        more := EndListing(offset + page.entries);
        return;
      }
      offset := next;
      return true;
    }

    method EndListing(end: nat) returns (more: bool)
      requires Valid()
      modifies this, head, metadata
      ensures Valid() && head == old(head)
      ensures (head.State(), offset, more) == EndedAt(old(head.State()), old(offset), end)
    {
      var resumeAt := head.ListingEnded();
      if resumeAt.None? || resumeAt.value >= end {
        metadata.truncated := false;
        return false;
      }
      offset := resumeAt.value;
      return true;
    }

    method Truncate()
      requires Valid()
      modifies metadata
      ensures Valid() && head.State() == old(head.State()).(saved := Truncated(old(head.State()).saved))
    {
      metadata.cursor, metadata.truncated := NoCursor, true;
    }

    method Restart()
      requires Valid()
      modifies this, metadata
      ensures Valid() && fresh(head) && offset == 0
      ensures metadata.Value() == Cleared(old(metadata.Value())) && head.State() == Begin(metadata.Value(), pageSize)
    {
      metadata.cursor := NoCursor;
      metadata.headIds, metadata.headOffset, metadata.tailIds := [], 0, [];
      head := new NewestFirstCursor(metadata, pageSize);
      offset := 0;
    }
  }
}
