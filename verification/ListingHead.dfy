/** Resuming a newest-first listing whose entries shift down (_listing_head.py). */
module ListingHead {

  type Id = string

  const HEAD_ID_LIMIT: nat := 25

  datatype Option<T> = None | Some(value: T)

  datatype Cursor = NoCursor | Decimal(offset: nat) | Opaque(text: string)

  /** What is kept about a listing between runs. */
  datatype Saved = Saved(cursor: Cursor, truncated: bool, headIds: seq<Id>, headOffset: nat, tailIds: seq<Id>)

  datatype Mode = Rescan | Scanning | Probing | Backlog

  /** Everything a run's cursor holds, with the metadata it shares. */
  datatype Head = Head(
    saved: Saved, pageSize: nat,
    savedIds: seq<Id>, savedOffset: nat, savedBacklog: nat, savedTail: set<Id>,
    mode: Mode, unsettledHead: Option<(nat, seq<Id>)>, freshIds: seq<Id>,
    scanSettled: bool, scanOffset: nat, scanTail: seq<Id>,
    backlogSettled: bool, headEnd: nat, headEndTail: seq<Id>,
    shift: Option<int>, realigned: bool)

  function Front(ids: seq<Id>): seq<Id> {
    if |ids| <= HEAD_ID_LIMIT then ids else ids[..HEAD_ID_LIMIT]
  }

  function Tail(ids: seq<Id>): seq<Id> {
    if |ids| <= HEAD_ID_LIMIT then ids else ids[|ids| - HEAD_ID_LIMIT..]
  }

  /** The offset a decimal cursor names; any other cursor stands for the first page. */
  function DecimalOffset(cursor: Cursor): nat {
    if cursor.Decimal? then cursor.offset else 0
  }

  function CursorAt(offset: nat): Cursor {
    if offset == 0 then NoCursor else Decimal(offset)
  }

  function Begin(saved: Saved, pageSize: nat): Head {
    Head(saved, pageSize, saved.headIds, saved.headOffset, DecimalOffset(saved.cursor), set id | id in saved.tailIds,
         if saved.headIds != [] then Scanning else Rescan, None, [], true, 0, [], true, 0, [], None, false)
  }

  // ----- One step as functions of the state

  function WithBacklog(h: Head, offset: nat): Head {
    h.(saved := h.saved.(cursor := CursorAt(offset)))
  }

  function WithBacklogTail(h: Head, offset: nat, tail: seq<Id>): Head {
    h.(saved := h.saved.(cursor := CursorAt(offset), tailIds := tail))
  }

  function Adopted(h: Head): Head {
    var adopted := h.(mode := Rescan, saved := h.saved.(headIds := h.freshIds, headOffset := 0));
    WithBacklogTail(adopted, h.scanOffset, h.scanTail)
  }

  function FellBack(h: Head): Head {
    WithBacklogTail(h.(realigned := true, mode := Backlog), h.headEnd, h.headEndTail)
  }

  /** The last index of `id` among the saved ids. */
  function SavedIndex(savedIds: seq<Id>, id: Id): (r: Option<nat>)
    ensures r.Some? ==> r.value < |savedIds| && savedIds[r.value] == id
    ensures r.None? ==> id !in savedIds
  {
    if savedIds == [] then None
    else if savedIds[|savedIds| - 1] == id then Some(|savedIds| - 1)
    else SavedIndex(savedIds[..|savedIds| - 1], id)
  }

  /** How far the first saved id on the page has moved from where it was saved. */
  function Located(savedIds: seq<Id>, savedOffset: nat, pageStart: nat, ids: seq<Id>): Option<int>
    decreases |ids|
  {
    if ids == [] then None
    else
      match SavedIndex(savedIds, ids[0])
      case Some(k) => Some(pageStart - (savedOffset + k))
      case None => Located(savedIds, savedOffset, pageStart + 1, ids[1..])
  }

  function Scanned(h: Head, pageStart: nat, ids: seq<Id>, entries: nat, complete: bool): Head {
    var begun := if pageStart == 0 then h.(freshIds := Front(ids)) else h;
    var settled := begun.(scanSettled := h.scanSettled && complete);
    if settled.scanSettled then settled.(scanOffset := pageStart + entries, scanTail := Tail(ids)) else settled
  }

  function Observed(h: Head, pageStart: nat, ids: seq<Id>, entries: nat, complete: bool): (Head, nat) {
    var s := Scanned(h, pageStart, ids, entries, complete);
    var next := pageStart + entries;
    match s.mode
    case Rescan => (Adopted(s), next)
    case Scanning => HeadObserved(s, pageStart, ids, next, complete)
    case Probing => ProbeObserved(s, pageStart, ids, next, complete)
    case Backlog => (BacklogObserved(s, next, Tail(ids), complete), next)
  }

  function NotedUnsettled(h: Head, pageStart: nat, ids: seq<Id>, complete: bool): Head {
    if complete then h else h.(unsettledHead := Some((pageStart + |ids| - |Tail(ids)|, Tail(ids))))
  }

  function Found(h: Head, pageStart: nat, ids: seq<Id>, complete: bool): Head {
    var noted := NotedUnsettled(h, pageStart, ids, complete);
    if h.shift.None? then noted.(shift := Located(h.savedIds, h.savedOffset, pageStart, ids)) else noted
  }

  function HeadObserved(h: Head, pageStart: nat, ids: seq<Id>, next: nat, complete: bool): (Head, nat) {
    var found := Found(h, pageStart, ids, complete);
    if found.shift.None? || next < h.savedOffset + |h.savedIds| + found.shift.value then (found, next)
    else HeadPassed(found, next, Tail(ids))
  }

  function HeadSaved(h: Head, next: nat, tail: seq<Id>): Head {
    var (offset, ids) := if h.unsettledHead.None? then (0, h.freshIds) else h.unsettledHead.value;
    h.(saved := h.saved.(headIds := ids, headOffset := offset), headEnd := next, headEndTail := tail)
  }

  function HeadPassed(h: Head, next: nat, tail: seq<Id>): (Head, nat)
    requires h.shift.Some?
  {
    var ended := HeadSaved(h, next, tail);
    var probe := h.savedBacklog + h.shift.value - h.pageSize;
    if h.savedTail != {} && probe > next then (WithBacklog(ended.(mode := Probing), probe + h.pageSize), probe)
    else (WithBacklogTail(ended.(mode := Backlog), next, tail), next)
  }

  function ProbeObserved(h: Head, pageStart: nat, ids: seq<Id>, next: nat, complete: bool): (Head, nat) {
    if h.savedTail !! (set id | id in ids) then (FellBack(h), h.headEnd)
    else if complete then (WithBacklogTail(h.(mode := Backlog), next, Tail(ids)), next)
    else (WithBacklogTail(h.(mode := Backlog, backlogSettled := false), pageStart, []), next)
  }

  function BacklogObserved(h: Head, next: nat, tail: seq<Id>, complete: bool): Head {
    var s := h.(backlogSettled := h.backlogSettled && complete);
    if s.backlogSettled then WithBacklogTail(s, next, tail) else s
  }

  /** The state after an empty page, and where to go on, if anywhere. */
  function Ended(h: Head): (Head, Option<nat>) {
    match h.mode
    case Scanning => (Adopted(h), None)
    case Probing => (FellBack(h), Some(h.headEnd))
    case _ => (h, None)
  }

  // ----- The cursor as the source runs it

  class Metadata {
    var cursor: Cursor
    var truncated: bool
    var headIds: seq<Id>
    var headOffset: nat
    var tailIds: seq<Id>

    function Value(): Saved
      reads this
    {
      Saved(cursor, truncated, headIds, headOffset, tailIds)
    }

    constructor (saved: Saved)
      ensures Value() == saved
    {
      cursor, truncated := saved.cursor, saved.truncated;
      headIds, headOffset, tailIds := saved.headIds, saved.headOffset, saved.tailIds;
    }
  }

  class NewestFirstCursor {
    const metadata: Metadata
    const pageSize: nat
    const savedIds: seq<Id>
    const savedOffset: nat
    const savedBacklog: nat
    const savedTail: set<Id>
    var mode: Mode
    var unsettledHead: Option<(nat, seq<Id>)>
    var freshIds: seq<Id>
    var scanSettled: bool
    var scanOffset: nat
    var scanTail: seq<Id>
    var backlogSettled: bool
    var headEnd: nat
    var headEndTail: seq<Id>
    var shift: Option<int>
    var realigned: bool

    ghost function State(): Head
      reads this, metadata
    {
      Head(metadata.Value(), pageSize, savedIds, savedOffset, savedBacklog, savedTail,
           mode, unsettledHead, freshIds, scanSettled, scanOffset, scanTail,
           backlogSettled, headEnd, headEndTail, shift, realigned)
    }

    constructor (shared: Metadata, size: nat)
      ensures metadata == shared && shared.Value() == old(shared.Value())
      ensures State() == Begin(shared.Value(), size)
    {
      metadata, pageSize := shared, size;
      savedIds, savedOffset := shared.headIds, shared.headOffset;
      savedBacklog, savedTail := DecimalOffset(shared.cursor), set id | id in shared.tailIds;
      mode := if shared.headIds != [] then Scanning else Rescan;
      unsettledHead, freshIds := None, [];
      scanSettled, scanOffset, scanTail := true, 0, [];
      backlogSettled, headEnd, headEndTail := true, 0, [];
      shift, realigned := None, false;
    }

    /** Accounts for a processed page and returns the offset to fetch next. */
    method ObservePage(pageStart: nat, listedIds: seq<Id>, entries: nat, complete: bool) returns (next: nat)
      modifies this, metadata
      ensures (State(), next) == Observed(old(State()), pageStart, listedIds, entries, complete)
    {
      var nextOffset := pageStart + entries;
      var tail := Tail(listedIds);
      NoteScan(pageStart, listedIds, nextOffset, tail, complete);
      match mode
      case Rescan =>
        AdoptScan();
        return nextOffset;
      case Scanning =>
        next := ObserveHead(pageStart, listedIds, nextOffset, tail, complete);
      case Probing =>
        next := ObserveProbe(pageStart, listedIds, nextOffset, tail, complete);
      case Backlog =>
        SettleBacklog(nextOffset, tail, complete);
        return nextOffset;
    }

    method NoteScan(pageStart: nat, listedIds: seq<Id>, nextOffset: nat, tail: seq<Id>, complete: bool)
      requires pageStart <= nextOffset && tail == Tail(listedIds)
      modifies this
      ensures State() == Scanned(old(State()), pageStart, listedIds, nextOffset - pageStart, complete)
    {
      if pageStart == 0 {
        freshIds := Front(listedIds);
      }
      scanSettled := scanSettled && complete;
      if scanSettled {
        scanOffset, scanTail := nextOffset, tail;
      }
    }

    /** Accounts for an empty page and returns the offset to continue from, or None to stop. */
    method ListingEnded() returns (resumeAt: Option<nat>)
      modifies this, metadata
      ensures (State(), resumeAt) == Ended(old(State()))
    {
      if mode == Scanning {
        AdoptScan();
        return None;
      }
      if mode == Probing {
        var offset := FallBack();
        return Some(offset);
      }
      return None;
    }

    method ObserveHead(pageStart: nat, listedIds: seq<Id>, nextOffset: nat, tail: seq<Id>, complete: bool) returns (next: nat)
      requires tail == Tail(listedIds)
      modifies this, metadata
      ensures (State(), next) == HeadObserved(old(State()), pageStart, listedIds, nextOffset, complete)
    {
      if !complete {
        unsettledHead := Some((pageStart + |listedIds| - |tail|, tail));
      }
      if shift == None {
        shift := Locate(pageStart, listedIds);
        if shift == None {
          return nextOffset;
        }
      }
      if nextOffset < savedOffset + |savedIds| + shift.value {
        return nextOffset;
      }
      next := PassHead(nextOffset, tail);
    }

    /** Saves the ids at the head, then jumps to the backlog or pages on. */
    method PassHead(nextOffset: nat, tail: seq<Id>) returns (next: nat)
      requires shift.Some?
      modifies this, metadata
      ensures (State(), next) == HeadPassed(old(State()), nextOffset, tail)
    {
      SaveHead(nextOffset, tail);
      var probe := savedBacklog + shift.value - pageSize;
      if savedTail != {} && probe > nextOffset {
        mode := Probing;
        SetBacklog(savedBacklog + shift.value, None);
        return probe;
      }
      mode := Backlog;
      SetBacklog(nextOffset, Some(tail));
      return nextOffset;
    }

    method SaveHead(nextOffset: nat, tail: seq<Id>)
      modifies this, metadata
      ensures State() == HeadSaved(old(State()), nextOffset, tail)
    {
      if unsettledHead == None {
        metadata.headIds, metadata.headOffset := freshIds, 0;
      } else {
        metadata.headOffset, metadata.headIds := unsettledHead.value.0, unsettledHead.value.1;
      }
      headEnd, headEndTail := nextOffset, tail;
    }

    method ObserveProbe(pageStart: nat, listedIds: seq<Id>, nextOffset: nat, tail: seq<Id>, complete: bool) returns (next: nat)
      requires tail == Tail(listedIds)
      modifies this, metadata
      ensures (State(), next) == ProbeObserved(old(State()), pageStart, listedIds, nextOffset, complete)
    {
      if savedTail !! (set id | id in listedIds) {
        next := FallBack();
        return;
      }
      mode := Backlog;
      if complete {
        SetBacklog(nextOffset, Some(tail));
      } else {
        backlogSettled := false;
        SetBacklog(pageStart, Some([]));
      }
      return nextOffset;
    }

    method FallBack() returns (offset: nat)
      modifies this, metadata
      ensures State() == FellBack(old(State())) && offset == old(headEnd)
    {
      realigned := true;
      mode := Backlog;
      SetBacklog(headEnd, Some(headEndTail));
      return headEnd;
    }

    method SettleBacklog(nextOffset: nat, tail: seq<Id>, complete: bool)
      modifies this, metadata
      ensures State() == BacklogObserved(old(State()), nextOffset, tail, complete)
    {
      backlogSettled := backlogSettled && complete;
      if backlogSettled {
        SetBacklog(nextOffset, Some(tail));
      }
    }

    method AdoptScan()
      modifies this, metadata
      ensures State() == Adopted(old(State()))
    {
      mode := Rescan;
      metadata.headIds, metadata.headOffset := freshIds, 0;
      SetBacklog(scanOffset, Some(scanTail));
    }

    method SetBacklog(offset: nat, tail: Option<seq<Id>>)
      modifies metadata
      ensures State() == match tail
                         case None => WithBacklog(old(State()), offset)
                         case Some(ids) => WithBacklogTail(old(State()), offset, ids)
    {
      metadata.cursor := if offset == 0 then NoCursor else Decimal(offset);
      if tail.Some? {
        metadata.tailIds := tail.value;
      }
    }

    method Locate(pageStart: nat, listedIds: seq<Id>) returns (r: Option<int>)
      ensures r == Located(savedIds, savedOffset, pageStart, listedIds)
    {
      for index := 0 to |listedIds|
        invariant Located(savedIds, savedOffset, pageStart, listedIds)
                  == Located(savedIds, savedOffset, pageStart + index, listedIds[index..])
      {
        var k := SavedIndex(savedIds, listedIds[index]);
        assert listedIds[index..][1..] == listedIds[index + 1..];
        if k.Some? {
          return Some(pageStart + index - (savedOffset + k.value));
        }
      }
      return None;
    }
  }
}
