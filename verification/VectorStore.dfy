/** Vector queries over a cached snapshot of the stored rows (embeddings/store_sqlite_async.py). */
module VectorStore {
  import opened Ranking

  datatype Option<T> = None | Some(value: T)

  type Record = string

  /** A stored row; the primary key is the record and the chunk's index. */
  datatype Chunk = Chunk(rowid: nat, record: Record, index: nat, vector: seq<real>)

  datatype Snapshot = Snapshot(version: int, dim: nat, rows: seq<Chunk>)

  /** The rows on file by rowid, the version SQLite gives this connection, and the vectors kept from a query. */
  datatype Store = Store(rows: seq<Chunk>, version: int, vectors: Option<Snapshot>)

  // ----- The rows on file

  function OfDim(rows: seq<Chunk>, dim: nat): seq<Chunk> {
    if rows == [] then [] else (if |rows[0].vector| == dim then [rows[0]] else []) + OfDim(rows[1..], dim)
  }

  function WithoutRecord(rows: seq<Chunk>, record: Record): seq<Chunk> {
    if rows == [] then [] else (if rows[0].record == record then [] else [rows[0]]) + WithoutRecord(rows[1..], record)
  }

  function WithoutKey(rows: seq<Chunk>, record: Record, index: nat): seq<Chunk> {
    if rows == [] then []
    else (if rows[0].record == record && rows[0].index == index then [] else [rows[0]]) + WithoutKey(rows[1..], record, index)
  }

  function NextRowId(rows: seq<Chunk>): nat {
    if rows == [] then 1 else rows[|rows| - 1].rowid + 1
  }

  /** Inserts the chunks in order, each replacing the row with its key. */
  function Inserted(rows: seq<Chunk>, chunks: seq<Chunk>): seq<Chunk> {
    if chunks == [] then rows
    else
      var (before, last) := (Inserted(rows, chunks[..|chunks| - 1]), chunks[|chunks| - 1]);
      var kept := WithoutKey(before, last.record, last.index);
      kept + [last.(rowid := NextRowId(kept))]
  }

  function Written(rows: seq<Chunk>, record: Option<Record>, chunks: seq<Chunk>): seq<Chunk> {
    Inserted(if record.None? then rows else WithoutRecord(rows, record.value), chunks)
  }

  /** The vector of the last chunk with the key. */
  function LastOf(chunks: seq<Chunk>, record: Record, index: nat): Option<seq<real>> {
    if chunks == [] then None
    else
      var last := chunks[|chunks| - 1];
      if last.record == record && last.index == index then Some(last.vector) else LastOf(chunks[..|chunks| - 1], record, index)
  }

  /** The vectors on file under the key. */
  ghost predicate OnFile(rows: seq<Chunk>, record: Record, index: nat, vector: seq<real>) {
    exists row :: row in rows && row.record == record && row.index == index && row.vector == vector
  }

  ghost predicate Ascending(rows: seq<Chunk>) {
    forall i, j :: 0 <= i < j < |rows| ==> rows[i].rowid < rows[j].rowid
  }

  lemma {:induction false} WithoutKeyAre(rows: seq<Chunk>, record: Record, index: nat, row: Chunk)
    ensures row in WithoutKey(rows, record, index) <==> row in rows && !(row.record == record && row.index == index)
  {
    if rows != [] {
      WithoutKeyAre(rows[1..], record, index, row);
      assert rows == [rows[0]] + rows[1..];
    }
  }

  lemma {:induction false} WithoutRecordAre(rows: seq<Chunk>, record: Record, row: Chunk)
    ensures row in WithoutRecord(rows, record) <==> row in rows && row.record != record
  {
    if rows != [] {
      WithoutRecordAre(rows[1..], record, row);
      assert rows == [rows[0]] + rows[1..];
    }
  }

  lemma {:induction false} InsertedOneMore(rows: seq<Chunk>, chunks: seq<Chunk>, row: Chunk, before: seq<Chunk>, kept: seq<Chunk>, last: Chunk)
    requires chunks != [] && last == chunks[|chunks| - 1] && before == Inserted(rows, chunks[..|chunks| - 1])
    requires kept == WithoutKey(before, last.record, last.index)
    ensures
      row in Inserted(rows, chunks)
      <==> row == last.(rowid := NextRowId(kept)) || (row in before && !(row.record == last.record && row.index == last.index))
  {
    WithoutKeyAre(before, last.record, last.index, row);
  }

  lemma {:induction false} InsertedAre(rows: seq<Chunk>, chunks: seq<Chunk>, row: Chunk)
    ensures LastOf(chunks, row.record, row.index).None? ==> (row in Inserted(rows, chunks) <==> row in rows)
    ensures LastOf(chunks, row.record, row.index).Some? && row in Inserted(rows, chunks) ==>
              row.vector == LastOf(chunks, row.record, row.index).value
  {
    if chunks != [] {
      var (less, last) := (chunks[..|chunks| - 1], chunks[|chunks| - 1]);
      var before := Inserted(rows, less);
      InsertedAre(rows, less, row);
      InsertedOneMore(rows, chunks, row, before, WithoutKey(before, last.record, last.index), last);
    }
  }

  lemma {:induction false} LastIsOnFile(rows: seq<Chunk>, chunks: seq<Chunk>, record: Record, index: nat)
    requires LastOf(chunks, record, index).Some?
    ensures OnFile(Inserted(rows, chunks), record, index, LastOf(chunks, record, index).value)
  {
    var (less, last) := (chunks[..|chunks| - 1], chunks[|chunks| - 1]);
    var before := Inserted(rows, less);
    var kept := WithoutKey(before, last.record, last.index);
    if last.record == record && last.index == index {
      InsertedOneMore(rows, chunks, last.(rowid := NextRowId(kept)), before, kept, last);
    } else {
      LastIsOnFile(rows, less, record, index);
      var row :| row in before && row.record == record && row.index == index && row.vector == LastOf(chunks, record, index).value;
      InsertedOneMore(rows, chunks, row, before, kept, last);
    }
  }

  /**
   * A write leaves under each key it names the last chunk written for it, and of the other rows exactly those that are not
   * of the record it replaces, as they were.
   */
  lemma {:induction false} WrittenAre(rows: seq<Chunk>, record: Option<Record>, chunks: seq<Chunk>, row: Chunk)
    ensures LastOf(chunks, row.record, row.index).None? ==>
              (row in Written(rows, record, chunks) <==> row in rows && record != Some(row.record))
    ensures LastOf(chunks, row.record, row.index).Some? ==>
              (OnFile(Written(rows, record, chunks), row.record, row.index, row.vector)
               <==> row.vector == LastOf(chunks, row.record, row.index).value)
  {
    var from := if record.None? then rows else WithoutRecord(rows, record.value);
    if record.Some? {
      WithoutRecordAre(rows, record.value, row);
    }
    InsertedAre(from, chunks, row);
    if LastOf(chunks, row.record, row.index).Some? {
      LastIsOnFile(from, chunks, row.record, row.index);
      if found :| found in Inserted(from, chunks) && found.record == row.record && found.index == row.index
                  && found.vector == row.vector {
        InsertedAre(from, chunks, found);
      }
    }
  }

  ghost predicate Above(rows: seq<Chunk>, least: int) {
    forall i :: 0 <= i < |rows| ==> rows[i].rowid > least
  }

  lemma {:induction false} WithoutStayAbove(rows: seq<Chunk>, record: Record, index: nat, least: int)
    requires Above(rows, least)
    ensures Above(WithoutKey(rows, record, index), least) && Above(WithoutRecord(rows, record), least)
  {
    if rows != [] {
      WithoutStayAbove(rows[1..], record, index, least);
    }
  }

  lemma {:induction false} WithoutKeyAscend(rows: seq<Chunk>, record: Record, index: nat)
    requires Ascending(rows)
    ensures Ascending(WithoutKey(rows, record, index))
  {
    if rows != [] {
      assert Ascending(rows[1..]) && Above(rows[1..], rows[0].rowid);
      WithoutKeyAscend(rows[1..], record, index);
      WithoutStayAbove(rows[1..], record, index, rows[0].rowid);
    }
  }

  lemma {:induction false} WithoutRecordAscend(rows: seq<Chunk>, record: Record)
    requires Ascending(rows)
    ensures Ascending(WithoutRecord(rows, record))
  {
    if rows != [] {
      assert Ascending(rows[1..]) && Above(rows[1..], rows[0].rowid);
      WithoutRecordAscend(rows[1..], record);
      WithoutStayAbove(rows[1..], record, 0, rows[0].rowid);
    }
  }

  lemma {:induction false} InsertedAscend(rows: seq<Chunk>, chunks: seq<Chunk>)
    requires Ascending(rows)
    ensures Ascending(Inserted(rows, chunks))
  {
    if chunks != [] {
      var (less, last) := (chunks[..|chunks| - 1], chunks[|chunks| - 1]);
      InsertedAscend(rows, less);
      WithoutKeyAscend(Inserted(rows, less), last.record, last.index);
    }
  }

  /** The file stays in the order of its rowids, what is written behind what was there. */
  lemma WrittenAscend(rows: seq<Chunk>, record: Option<Record>, chunks: seq<Chunk>)
    requires Ascending(rows)
    ensures Ascending(Written(rows, record, chunks))
  {
    if record.Some? {
      WithoutRecordAscend(rows, record.value);
    }
    InsertedAscend(if record.None? then rows else WithoutRecord(rows, record.value), chunks);
  }

  // ----- What can happen to a store

  /** A write by this store, rolled back or not; a commit by another connection, after which SQLite gives this one a
      version it never had; a new connection; a query. */
  datatype Event =
    | Write(record: Option<Record>, chunks: seq<Chunk>, committed: bool)
    | OtherCommit(rows: seq<Chunk>, steps: nat)
    | Reopen(version: int)
    | Query(dim: nat)

  predicate Current(s: Store, dim: nat) {
    s.vectors.Some? && s.vectors.value.version == s.version && s.vectors.value.dim == dim
  }

  function Do(s: Store, e: Event): Store {
    match e
    case Write(record, chunks, committed) =>
      s.(vectors := None, rows := if committed then Written(s.rows, record, chunks) else s.rows)
    case OtherCommit(rows, steps) => s.(rows := rows, version := s.version + 1 + steps)
    case Reopen(version) => s.(vectors := None, version := version)
    case Query(dim) => if Current(s, dim) then s else s.(vectors := Some(Snapshot(s.version, dim, OfDim(s.rows, dim))))
  }

  function After(s: Store, events: seq<Event>): Store {
    if events == [] then s else Do(After(s, events[..|events| - 1]), events[|events| - 1])
  }

  /** Vectors kept at the version the file still has are the file's. */
  ghost predicate Honest(s: Store) {
    s.vectors.Some? ==>
      && s.vectors.value.version <= s.version
      && (s.vectors.value.version == s.version ==> s.vectors.value.rows == OfDim(s.rows, s.vectors.value.dim))
  }

  /** Over any history, a query scores the rows that are stored. */
  lemma {:induction false} QueriesSeeTheFile(s: Store, events: seq<Event>, dim: nat)
    requires s.vectors == None
    ensures Honest(After(s, events))
    ensures
      var queried := Do(After(s, events), Query(dim));
      queried.rows == After(s, events).rows && Current(queried, dim) && queried.vectors.value.rows == OfDim(queried.rows, dim)
  {
    if events != [] {
      QueriesSeeTheFile(s, events[..|events| - 1], dim);
    }
  }

  /** A committed write reaches the file, one rolled back does not, and no query or reopening changes it. */
  lemma {:induction false} EventsReachTheFile(s: Store, e: Event, row: Chunk)
    ensures e.Write? && e.committed ==> Do(s, e).rows == Written(s.rows, e.record, e.chunks)
    ensures e.Write? && e.committed && LastOf(e.chunks, row.record, row.index).None? ==>
              (row in Do(s, e).rows <==> row in s.rows && e.record != Some(row.record))
    ensures e.Query? || e.Reopen? || (e.Write? && !e.committed) ==> Do(s, e).rows == s.rows
    ensures e.OtherCommit? ==> Do(s, e).rows == e.rows
  {
    if e.Write? {
      WrittenAre(s.rows, e.record, e.chunks, row);
    }
  }

  /** The rows of a dimension are all of them. */
  lemma {:induction false} OfDimAre(rows: seq<Chunk>, dim: nat, row: Chunk)
    ensures row in OfDim(rows, dim) <==> row in rows && |row.vector| == dim
  {
    if rows != [] {
      OfDimAre(rows[1..], dim, row);
      assert row in rows <==> row == rows[0] || row in rows[1..];
    }
  }

  /** They stay in their order on file. */
  lemma {:induction false} OfDimKeepsOrder(rows: seq<Chunk>, more: seq<Chunk>, dim: nat, both: seq<Chunk>)
    requires both == rows + more
    ensures OfDim(both, dim) == OfDim(rows, dim) + OfDim(more, dim)
  {
    if rows == [] {
      assert both == more && OfDim(rows, dim) == [];
    } else {
      var (rest, tail) := (both[1..], rows[1..]);
      assert both[0] == rows[0] && rest == tail + more;
      OfDimKeepsOrder(tail, more, dim, rest);
      OneMoreJoins(if |rows[0].vector| == dim then [rows[0]] else [], OfDim(tail, dim), OfDim(more, dim));
    }
  }

  lemma OneMoreJoins(one: seq<Chunk>, rest: seq<Chunk>, more: seq<Chunk>)
    ensures one + (rest + more) == one + rest + more
  {
  }

  // ----- The best hits

  /** What a query asks for; `score` gives `None` for a score that is not finite. */
  datatype Request = Request(score: seq<real> -> Option<real>, topK: nat, minScore: real, exclude: Option<Record>)

  predicate Usable(request: Request, chunk: Chunk) {
    request.score(chunk.vector).Some? && request.exclude != Some(chunk.record)
  }

  /** The usable rows, greatest score first when sorted, rows with one score in their order on file. */
  function Scored(request: Request, rows: seq<Chunk>, at: nat): seq<Entry<Chunk>> {
    if rows == [] then []
    else
      (if Usable(request, rows[0]) then [Entry(-request.score(rows[0].vector).value, at, rows[0])] else [])
      + Scored(request, rows[1..], at + 1)
  }

  function AtLeast(hits: seq<Entry<Chunk>>, minScore: real): seq<Entry<Chunk>> {
    if hits == [] then [] else (if -hits[0].key >= minScore then [hits[0]] else []) + AtLeast(hits[1..], minScore)
  }

  /** All usable rows sorted, cut to the number asked for, and of those the ones that score enough. */
  function BestHits(request: Request, rows: seq<Chunk>): seq<Entry<Chunk>> {
    AtLeast(First(Sorted(Scored(request, rows, 0)), request.topK), request.minScore)
  }

  function ScoresOf(hits: seq<Entry<Chunk>>): seq<real> {
    if hits == [] then [] else [-hits[0].key] + ScoresOf(hits[1..])
  }

  function CountFrom(scores: seq<real>, least: real): nat {
    if scores == [] then 0 else (if scores[0] >= least then 1 else 0) + CountFrom(scores[1..], least)
  }

  function CountAbove(scores: seq<real>, least: real): nat {
    if scores == [] then 0 else (if scores[0] > least then 1 else 0) + CountAbove(scores[1..], least)
  }

  /** The `k`-th greatest of the scores, which a partition puts in its place. */
  ghost predicate IsKth(scores: seq<real>, k: nat, value: real) {
    value in scores && CountAbove(scores, value) < k <= CountFrom(scores, value)
  }

  lemma {:induction false} ScoredAreDistinct(request: Request, rows: seq<Chunk>, at: nat)
    ensures Distinct(Scored(request, rows, at))
    ensures forall i :: 0 <= i < |Scored(request, rows, at)| ==> Scored(request, rows, at)[i].tie >= at
  {
    if rows != [] {
      ScoredAreDistinct(request, rows[1..], at + 1);
    }
  }

  lemma {:induction false} KeptAreCounted(hits: seq<Entry<Chunk>>, cutoff: real)
    ensures |AtMost(hits, -cutoff)| == CountFrom(ScoresOf(hits), cutoff)
  {
    if hits != [] {
      KeptAreCounted(hits[1..], cutoff);
    }
  }

  lemma {:induction false} AtMostLacks(hits: seq<Entry<Chunk>>, key: real, tie: int)
    requires Apart(hits, tie)
    ensures Apart(AtMost(hits, key), tie)
  {
    if hits != [] {
      AtMostLacks(hits[1..], key, tie);
    }
  }

  lemma {:induction false} AtMostAreDistinct(hits: seq<Entry<Chunk>>, key: real)
    requires Distinct(hits)
    ensures Distinct(AtMost(hits, key))
  {
    if hits != [] {
      assert Distinct(hits[1..]);
      AtMostAreDistinct(hits[1..], key);
      AtMostLacks(hits[1..], key, hits[0].tie);
    }
  }

  /** The row is scored, unless its record is the excluded one or its score is not finite. */
  ghost predicate IsScored(request: Request, rows: seq<Chunk>, at: nat, i: nat, hit: Entry<Chunk>) {
    && i < |rows| && hit == Entry(hit.key, at + i, rows[i]) && request.score(rows[i].vector) == Some(-hit.key)
    && (request.exclude.Some? ==> rows[i].record != request.exclude.value)
  }

  lemma {:induction false} ScoredAre(request: Request, rows: seq<Chunk>, at: nat, hit: Entry<Chunk>)
    ensures hit in Scored(request, rows, at) <==> exists i: nat :: IsScored(request, rows, at, i, hit)
  {
    if rows != [] {
      var rest, next := rows[1..], at + 1;
      ScoredAre(request, rest, next, hit);
      if i: nat :| IsScored(request, rows, at, i, hit) {
        if i > 0 {
          assert IsScored(request, rest, next, i - 1, hit);
        }
      }
      if i: nat :| IsScored(request, rest, next, i, hit) {
        assert IsScored(request, rows, at, i + 1, hit);
      }
      if hit in Scored(request, rows, at) && hit !in Scored(request, rest, next) {
        assert IsScored(request, rows, at, 0, hit);
      }
    }
  }

  /** The greater score comes first, and of equal scores the row that is first on file. */
  lemma {:induction false} BestHitsAreInOrder(request: Request, rows: seq<Chunk>, i: nat, j: nat)
    requires i < j < |BestHits(request, rows)|
    ensures
      var (hit, later) := (BestHits(request, rows)[i], BestHits(request, rows)[j]);
      -hit.key > -later.key || (-hit.key == -later.key && hit.tie < later.tie)
  {
    BestHitsAreRanked(request, rows);
    assert Before(BestHits(request, rows)[i], BestHits(request, rows)[j]);
  }

  lemma {:induction false} BestHitsAreRanked(request: Request, rows: seq<Chunk>)
    ensures Ranked(BestHits(request, rows))
  {
    var sorted := Sorted(Scored(request, rows, 0));
    ScoredAreDistinct(request, rows, 0);
    SortedIsRanked(Scored(request, rows, 0));
    FirstIsRanked(sorted, request.topK);
    AtLeastIsPrefix(First(sorted, request.topK), request.minScore);
  }

  lemma {:induction false} FirstIsRanked(hits: seq<Entry<Chunk>>, count: nat)
    requires Ranked(hits)
    ensures Ranked(First(hits, count))
  {
  }

  /** No hit is of the excluded record, unscored, or below the least score asked for. */
  lemma {:induction false} BestHitsAreAskedFor(request: Request, rows: seq<Chunk>, hit: Entry<Chunk>)
    requires hit in BestHits(request, rows)
    ensures -hit.key >= request.minScore && exists i: nat :: IsScored(request, rows, 0, i, hit)
  {
    var all := Scored(request, rows, 0);
    AtLeastAre(First(Sorted(all), request.topK), request.minScore, hit);
    ScoredAreDistinct(request, rows, 0);
    SortedIsRanked(all);
    ScoredAre(request, rows, 0, hit);
  }

  lemma {:induction false} AtLeastAre(hits: seq<Entry<Chunk>>, minScore: real, hit: Entry<Chunk>)
    ensures hit in AtLeast(hits, minScore) <==> hit in hits && -hit.key >= minScore
  {
    if hits != [] {
      AtLeastAre(hits[1..], minScore, hit);
    }
  }

  /** Sorting only the rows that reach the cutoff finds the same best rows. */
  lemma {:induction false} CutoffKeepsTheBest(request: Request, rows: seq<Chunk>, cutoff: real)
    requires IsKth(ScoresOf(Scored(request, rows, 0)), request.topK, cutoff)
    ensures
      var all := Scored(request, rows, 0);
      First(Sorted(AtMost(all, -cutoff)), request.topK) == First(Sorted(all), request.topK)
  {
    ScoredAreDistinct(request, rows, 0);
    EnoughAreKept(Scored(request, rows, 0), cutoff, -cutoff, request.topK);
  }

  lemma {:induction false} EnoughAreKept(all: seq<Entry<Chunk>>, cutoff: real, key: real, topK: nat)
    requires Distinct(all) && key == -cutoff && topK <= CountFrom(ScoresOf(all), cutoff)
    ensures First(Sorted(AtMost(all, key)), topK) == First(Sorted(all), topK)
  {
    AtMostAreDistinct(all, key);
    AtMostAre(all, key);
    KeptAreCounted(all, cutoff);
    FirstOfAtMost(all, AtMost(all, key), key, topK);
  }

  /** What a full sort would give, too: nearer rows first, and no usable row that scores enough left out for a worse one. */
  lemma BestHitsAreBest(request: Request, rows: seq<Chunk>, hit: Entry<Chunk>)
    requires hit in Scored(request, rows, 0) && -hit.key >= request.minScore
    ensures Ranked(BestHits(request, rows)) && |BestHits(request, rows)| <= request.topK
    ensures
      || hit in BestHits(request, rows)
      || (|BestHits(request, rows)| == request.topK && forall i :: 0 <= i < request.topK ==> Before(BestHits(request, rows)[i], hit))
  {
    var all := Scored(request, rows, 0);
    ScoredAreDistinct(request, rows, 0);
    SortedIsRanked(all);
    var first := First(Sorted(all), request.topK);
    assert hit in Sorted(all);
    var sorted := Sorted(all);
    var k :| 0 <= k < |sorted| && sorted[k] == hit;
    AtLeastIsPrefix(first, request.minScore);
    if k < |first| {
      AtLeastHas(first, request.minScore, k);
    } else {
      AtLeastIsAll(first, request.minScore);
    }
  }

  lemma {:induction false} AtLeastIsPrefix(hits: seq<Entry<Chunk>>, minScore: real)
    requires Ranked(hits)
    ensures AtLeast(hits, minScore) <= hits && Ranked(AtLeast(hits, minScore))
  {
    if hits != [] {
      assert Ranked(hits[1..]);
      AtLeastIsPrefix(hits[1..], minScore);
      if -hits[0].key < minScore {
        NoneAtLeast(hits[1..], minScore);
      }
    }
  }

  lemma {:induction false} NoneAtLeast(hits: seq<Entry<Chunk>>, minScore: real)
    requires forall i :: 0 <= i < |hits| ==> -hits[i].key < minScore
    ensures AtLeast(hits, minScore) == []
  {
    if hits != [] {
      NoneAtLeast(hits[1..], minScore);
    }
  }

  lemma {:induction false} AtLeastHas(hits: seq<Entry<Chunk>>, minScore: real, k: nat)
    requires k < |hits| && -hits[k].key >= minScore
    ensures hits[k] in AtLeast(hits, minScore)
  {
    if k > 0 {
      AtLeastHas(hits[1..], minScore, k - 1);
    }
  }

  lemma {:induction false} AtLeastIsAll(hits: seq<Entry<Chunk>>, minScore: real)
    requires forall i :: 0 <= i < |hits| ==> -hits[i].key >= minScore
    ensures AtLeast(hits, minScore) == hits
  {
    if hits != [] {
      AtLeastIsAll(hits[1..], minScore);
    }
  }

  // ----- The store as the source runs it

  class AsyncSqliteEmbeddingStore {
    var rows: seq<Chunk>
    var version: int
    var vectors: Option<Snapshot>

    ghost function State(): Store
      reads this
    {
      Store(rows, version, vectors)
    }

    constructor (stored: seq<Chunk>, current: int)
      ensures State() == Store(stored, current, None)
    {
      rows, version, vectors := stored, current, None;
    }

    /** The event `Reopen`: a new connection sees any version, so nothing kept from the last one is used. */
    method OpenConnection(current: int)
      modifies this
      ensures State() == Do(old(State()), Reopen(current))
    {
      vectors := None;
      version := current;
    }

    /** The event `Write`: replaces a record's chunks, or only adds some, in one transaction. */
    method Write(record: Option<Record>, chunks: seq<Chunk>, committed: bool)
      modifies this
      ensures State() == Do(old(State()), Event.Write(record, chunks, committed))
    {
      vectors := None;
      if committed {
        rows := Written(rows, record, chunks);
      }
    }

    /** The event `OtherCommit`, which happens to the store: another connection commits. */
    method OtherCommit(stored: seq<Chunk>, steps: nat)
      modifies this
      ensures State() == Do(old(State()), Event.OtherCommit(stored, steps))
    {
      rows, version := stored, version + 1 + steps;
    }

    /** The event `Query`: the rows of the dimension, read again only when the kept ones may be stale. */
    method TakeSnapshot(dim: nat) returns (snapshot: Snapshot)
      modifies this
      ensures State() == Do(old(State()), Event.Query(dim))
      ensures vectors == Some(snapshot)
    {
      if vectors.Some? && vectors.value.version == version && vectors.value.dim == dim {
        return vectors.value;
      }
      snapshot := Snapshot(version, dim, OfDim(rows, dim));
      vectors := Some(snapshot);
    }

    /** The best hits among the rows of the dimension; `partition` finds the `k`-th greatest score. */
    method Query(dim: nat, request: Request, partition: (seq<real>, nat) -> real) returns (hits: seq<Entry<Chunk>>)
      requires Honest(State())
      requires forall scores: seq<real>, k: nat :: 0 < k < |scores| ==> IsKth(scores, k, partition(scores, k))
      modifies this
      ensures Honest(State()) && State() == if request.topK == 0 then old(State()) else Do(old(State()), Event.Query(dim))
      ensures hits == BestHits(request, OfDim(old(rows), dim))
    {
      if request.topK == 0 {
        return [];
      }
      var snapshot := TakeSnapshot(dim);
      var all := Scored(request, snapshot.rows, 0);
      var kept := all;
      ScoresAreAll(all);
      if request.topK < |kept| {
        var cutoff := partition(ScoresOf(kept), request.topK);
        CutoffKeepsTheBest(request, snapshot.rows, cutoff);
        kept := AtMost(kept, -cutoff);
      }
      return AtLeast(First(Sorted(kept), request.topK), request.minScore);
    }
  }

  lemma {:induction false} ScoresAreAll(hits: seq<Entry<Chunk>>)
    ensures |ScoresOf(hits)| == |hits|
  {
    if hits != [] {
      ScoresAreAll(hits[1..]);
    }
  }
}
