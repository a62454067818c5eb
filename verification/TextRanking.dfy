/** Ranking full-text matches, whatever order SQLite gives equal scores (search/store_sqlite_fts5.py). */
module TextRanking {
  import opened Ranking

  const SQLITE_MAX_INTEGER: nat := 0x7fff_ffff_ffff_ffff

  type RowId = int

  /** Record ids; only their order matters. */
  type Record = int

  datatype Match = Match(rowid: RowId, score: real)

  /** Two documents never share a record id. */
  ghost predicate Injective(names: map<RowId, Record>) {
    forall a, b :: a in names && b in names && names[a] == names[b] ==> a == b
  }

  ghost predicate DistinctRows(matches: seq<Match>) {
    forall i, j :: 0 <= i < j < |matches| ==> matches[i].rowid != matches[j].rowid
  }

  /** An order SQLite may read the matches in. */
  ghost predicate ByScore(order: seq<Match>) {
    DistinctRows(order) && forall i, j :: 0 <= i < j < |order| ==> order[i].score <= order[j].score
  }

  /** The matches that have a document, with their record ids. */
  function Named(matches: seq<Match>, names: map<RowId, Record>): seq<Entry<RowId>> {
    if matches == [] then []
    else
      (if matches[0].rowid in names then [Entry(matches[0].score, names[matches[0].rowid], matches[0].rowid)] else [])
      + Named(matches[1..], names)
  }

  /** The first matches by score, then record id. */
  function BestMatches(matches: seq<Match>, names: map<RowId, Record>, limit: nat): seq<Entry<RowId>> {
    First(Sorted(Named(matches, names)), limit)
  }

  function Below(matches: seq<Match>, boundary: real): seq<Match> {
    if matches == [] then [] else (if matches[0].score < boundary then [matches[0]] else []) + Below(matches[1..], boundary)
  }

  function RowsAt(matches: seq<Match>, boundary: real): seq<RowId> {
    if matches == [] then [] else (if matches[0].score == boundary then [matches[0].rowid] else []) + RowsAt(matches[1..], boundary)
  }

  function AllAt(rows: seq<RowId>, score: real): seq<Match> {
    if rows == [] then [] else [Match(rows[0], score)] + AllAt(rows[1..], score)
  }

  /** The rows at the boundary, each once, in whatever order they are read. */
  ghost predicate Tied(order: seq<Match>, boundary: real, rows: seq<RowId>) {
    && |rows| == |RowsAt(order, boundary)| && (forall i, j :: 0 <= i < j < |rows| ==> rows[i] != rows[j])
    && forall rowid :: rowid in rows <==> Match(rowid, boundary) in order
  }

  lemma {:induction false} NamedAre(matches: seq<Match>, names: map<RowId, Record>, e: Entry<RowId>)
    ensures e in Named(matches, names) <==> e.row in names && e.tie == names[e.row] && Match(e.row, e.key) in matches
    ensures |Named(matches, names)| <= |matches|
    ensures (forall i :: 0 <= i < |matches| ==> matches[i].rowid in names) ==> |Named(matches, names)| == |matches|
  {
    if matches != [] {
      NamedAre(matches[1..], names, e);
      assert Match(e.row, e.key) in matches <==> Match(e.row, e.key) == matches[0] || Match(e.row, e.key) in matches[1..];
    }
  }

  ghost predicate Lacks(matches: seq<Match>, rowid: RowId) {
    forall i :: 0 <= i < |matches| ==> matches[i].rowid != rowid
  }

  lemma {:induction false} NamedLacks(matches: seq<Match>, names: map<RowId, Record>, rowid: RowId)
    requires Injective(names) && rowid in names && Lacks(matches, rowid)
    ensures Apart(Named(matches, names), names[rowid])
  {
    if matches != [] {
      NamedLacks(matches[1..], names, rowid);
    }
  }

  lemma {:induction false} NamedAreDistinct(matches: seq<Match>, names: map<RowId, Record>)
    requires Injective(names) && DistinctRows(matches)
    ensures Distinct(Named(matches, names))
  {
    if matches != [] {
      assert DistinctRows(matches[1..]);
      NamedAreDistinct(matches[1..], names);
      if matches[0].rowid in names {
        assert Lacks(matches[1..], matches[0].rowid);
        NamedLacks(matches[1..], names, matches[0].rowid);
      }
    }
  }

  /** The best matches do not depend on the order SQLite reads equal scores in. */
  lemma BestMatchesIgnoreOrder(a: seq<Match>, b: seq<Match>, names: map<RowId, Record>, limit: nat)
    requires Injective(names) && DistinctRows(a) && DistinctRows(b) && forall m :: m in a <==> m in b
    ensures BestMatches(a, names, limit) == BestMatches(b, names, limit)
  {
    NamedAreDistinct(a, names);
    NamedAreDistinct(b, names);
    forall e
      ensures e in Named(a, names) <==> e in Named(b, names)
    {
      NamedAre(a, names, e);
      NamedAre(b, names, e);
    }
    SortedIgnoresOrder(Named(a, names), Named(b, names));
  }

  /** The match is ranked with its document's record and its score. */
  ghost predicate IsNamed(matches: seq<Match>, names: map<RowId, Record>, e: Entry<RowId>) {
    e.row in names && e.tie == names[e.row] && Match(e.row, e.key) in matches
  }

  /** The lower score comes first, and of equal scores the lower record id. */
  predicate Sooner(score: real, record: Record, otherScore: real, otherRecord: Record) {
    score < otherScore || (score == otherScore && record < otherRecord)
  }

  /** The best matches are matches with a document, in order; one is left out only when the limit is full of sooner ones. */
  lemma {:induction false} BestMatchesAre(matches: seq<Match>, names: map<RowId, Record>, limit: nat, e: Entry<RowId>)
    requires Injective(names) && DistinctRows(matches)
    ensures
      var best := BestMatches(matches, names, limit);
      && (e in best ==> IsNamed(matches, names, e))
      && (forall i, j :: 0 <= i < j < |best| ==> Sooner(best[i].key, best[i].tie, best[j].key, best[j].tie))
      && (IsNamed(matches, names, e) && e !in best ==>
            |best| == limit && forall i :: 0 <= i < limit ==> Sooner(best[i].key, best[i].tie, e.key, e.tie))
  {
    var (named, best) := (Named(matches, names), BestMatches(matches, names, limit));
    NamedAreDistinct(matches, names);
    NamedAre(matches, names, e);
    SortedIsRanked(named);
    var sorted := Sorted(named);
    if IsNamed(matches, names, e) && e !in best {
      var k :| 0 <= k < |sorted| && sorted[k] == e;
      assert forall i :: 0 <= i < |best| ==> Before(sorted[i], sorted[k]);
    }
  }

  // ----- Completing the boundary

  lemma {:induction false} BelowAre(matches: seq<Match>, boundary: real, m: Match)
    ensures m in Below(matches, boundary) <==> m in matches && m.score < boundary
  {
    if matches != [] {
      BelowAre(matches[1..], boundary, m);
    }
  }

  lemma {:induction false} AllAtAre(rows: seq<RowId>, score: real, m: Match)
    ensures m in AllAt(rows, score) <==> m.score == score && m.rowid in rows
    ensures |AllAt(rows, score)| == |rows|
  {
    if rows != [] {
      AllAtAre(rows[1..], score, m);
    }
  }

  /** Below the boundary or at it are all the matches read before the last one at it. */
  lemma {:induction false} BelowAndAtAreEnough(order: seq<Match>, boundary: real, n: nat)
    requires n <= |order| && forall i :: 0 <= i < n ==> order[i].score <= boundary
    ensures |Below(order[..n], boundary)| + |RowsAt(order, boundary)| >= n
  {
    if n > 0 {
      BelowAndAtAreEnough(order[1..], boundary, n - 1);
      assert order[..n][1..] == order[1..][..n - 1];
    }
  }

  lemma {:induction false} BelowLack(matches: seq<Match>, boundary: real, rowid: RowId)
    requires Lacks(matches, rowid)
    ensures Lacks(Below(matches, boundary), rowid)
  {
    if matches != [] {
      BelowLack(matches[1..], boundary, rowid);
    }
  }

  lemma {:induction false} BelowAreDistinct(matches: seq<Match>, boundary: real)
    requires DistinctRows(matches)
    ensures DistinctRows(Below(matches, boundary))
  {
    if matches != [] {
      assert DistinctRows(matches[1..]);
      BelowAreDistinct(matches[1..], boundary);
      assert Lacks(matches[1..], matches[0].rowid);
      BelowLack(matches[1..], boundary, matches[0].rowid);
    }
  }

  lemma {:induction false} AllAtHas(rows: seq<RowId>, score: real)
    ensures |AllAt(rows, score)| == |rows| && forall i :: 0 <= i < |rows| ==> AllAt(rows, score)[i] == Match(rows[i], score)
  {
    if rows != [] {
      AllAtHas(rows[1..], score);
    }
  }

  lemma OneScoreARow(order: seq<Match>, a: Match, b: Match)
    requires DistinctRows(order) && a in order && b in order && a.rowid == b.rowid
    ensures a == b
  {
  }

  /** The rows below the boundary among the first ones, and all the tied rows, are the matches up to the boundary. */
  lemma CompletedIsWhole(order: seq<Match>, rows: seq<RowId>, limit: nat) returns (top: seq<Match>)
    requires ByScore(order) && 0 < limit <= |order| && Tied(order, order[limit - 1].score, rows)
    ensures
      var boundary := order[limit - 1].score;
      && top == Below(order[..limit], boundary) + AllAt(rows, boundary)
      && IsWhole(order, top, boundary) && |top| >= limit
  {
    var boundary := order[limit - 1].score;
    var (below, at) := (Below(order[..limit], boundary), AllAt(rows, boundary));
    top := below + at;
    BelowAndAtAreEnough(order, boundary, limit);
    AllAtHas(rows, boundary);
    forall m
      ensures m in top <==> m in order && m.score <= boundary
    {
      BelowAre(order[..limit], boundary, m);
      AllAtAre(rows, boundary, m);
      if m in order && m.score < boundary {
        var i :| 0 <= i < |order| && order[i] == m;
        assert order[..limit][i] == m;
      }
    }
    assert DistinctRows(order[..limit]);
    BelowAreDistinct(order[..limit], boundary);
    forall i, j | 0 <= i < |below| && 0 <= j < |at|
      ensures below[i].rowid != at[j].rowid
    {
      BelowAre(order[..limit], boundary, below[i]);
      assert at[j] == Match(rows[j], boundary) && rows[j] in rows;
      if below[i].rowid == at[j].rowid {
        OneScoreARow(order, below[i], at[j]);
      }
    }
  }

  ghost predicate IsWhole(order: seq<Match>, top: seq<Match>, boundary: real) {
    DistinctRows(top) && forall m :: m in top <==> m in order && m.score <= boundary
  }

  lemma CutIsWhole(order: seq<Match>, limit: nat)
    requires ByScore(order) && 0 < limit < |order| && order[limit - 1].score != order[limit].score
    ensures IsWhole(order, order[..limit], order[limit - 1].score)
  {
    var boundary := order[limit - 1].score;
    forall m
      ensures m in order[..limit] <==> m in order && m.score <= boundary
    {
      if m in order && m.score <= boundary {
        var i :| 0 <= i < |order| && order[i] == m;
        assert i < limit;
        assert order[..limit][i] == m;
      }
    }
  }

  /** Sorting the matches up to a boundary, when all are named and enough, gives the best matches. */
  lemma WholeGivesBest(order: seq<Match>, top: seq<Match>, boundary: real, names: map<RowId, Record>, limit: nat)
    requires ByScore(order) && Injective(names) && IsWhole(order, top, boundary) && |top| >= limit
    requires forall i :: 0 <= i < |top| ==> top[i].rowid in names
    ensures First(Sorted(Named(top, names)), limit) == BestMatches(order, names, limit)
  {
    NamedAreDistinct(order, names);
    NamedAreDistinct(top, names);
    forall e
      ensures e in Named(top, names) <==> e in Named(order, names) && e.key <= boundary
    {
      NamedAre(order, names, e);
      NamedAre(top, names, e);
    }
    NamedAre(top, names, Entry(0.0, 0, 0));
    FirstOfAtMost(Named(order, names), Named(top, names), boundary, limit);
  }

  // ----- The ranking as the source runs it

  lemma BelowOneOn(below: seq<Match>, one: Match, rest: seq<Match>, boundary: real)
    ensures
      below + Below([one] + rest, boundary)
      == (if one.score < boundary then below + [one] else below) + Below(rest, boundary)
  {
    assert ([one] + rest)[1..] == rest;
    if one.score < boundary {
      assert Below([one] + rest, boundary) == [one] + Below(rest, boundary);
    }
  }

  method BelowBoundary(top: seq<Match>, boundary: real) returns (below: seq<Match>)
    ensures below == Below(top, boundary)
  {
    below := [];
    for i := 0 to |top|
      invariant below + Below(top[i..], boundary) == Below(top, boundary)
    {
      ghost var rest := top[i + 1..];
      assert top[i..] == [top[i]] + rest;
      BelowOneOn(below, top[i], rest, boundary);
      if top[i].score < boundary {
        below := below + [top[i]];
      }
    }
    assert top[|top|..] == [] && below + [] == below;
  }

  /** The first rows read, completed with every row tied at the boundary. */
  method ReadTop(order: seq<Match>, tied: real -> seq<RowId>, limit: nat) returns (top: seq<Match>)
    requires ByScore(order) && (forall boundary :: Tied(order, boundary, tied(boundary)))
    requires 0 < limit && |order| <= SQLITE_MAX_INTEGER
    ensures if |order| <= limit then top == order else IsWhole(order, top, order[limit - 1].score) && |top| >= limit
  {
    var fetched := if limit < SQLITE_MAX_INTEGER then limit + 1 else limit;
    var scored := First(order, fetched);
    top := First(scored, limit);
    if |scored| > limit {
      assert top == order[..limit];
      var boundary := scored[limit - 1].score;
      if boundary == scored[limit].score {
        var below := BelowBoundary(top, boundary);
        ghost var whole := CompletedIsWhole(order, tied(boundary), limit);
        top := below + AllAt(tied(boundary), boundary);
      } else {
        CutIsWhole(order, limit);
      }
    }
  }

  /**
   * Ranks the matches SQLite reads in `order`. `tied` reads the rows at a score, and the first `limit` of all the
   * matches by score and record are read when a row at the top has no document.
   */
  method Rank(order: seq<Match>, tied: real -> seq<RowId>, names: map<RowId, Record>, limit: nat)
    returns (ranked: seq<Entry<RowId>>)
    requires ByScore(order) && Injective(names) && (forall boundary :: Tied(order, boundary, tied(boundary)))
    requires 0 < limit && |order| <= SQLITE_MAX_INTEGER
    ensures ranked == BestMatches(order, names, limit)
  {
    var top := ReadTop(order, tied, limit);
    if exists i :: 0 <= i < |top| && top[i].rowid !in names {
      return BestMatches(order, names, limit);
    }
    if |order| > limit {
      WholeGivesBest(order, top, order[limit - 1].score, names, limit);
    }
    return First(Sorted(Named(top, names)), limit);
  }
}
