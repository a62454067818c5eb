/** The multi-cursor walk that decides a NEAR group (search/evaluate.py).

    Each operand has an ascending list of start positions.  A pick chooses one
    start per operand; it matches when every chosen occurrence ends at most
    `distance` tokens before the start that comes last.  The walk never
    enumerates picks: it moves one cursor per operand forward only, yet keeps
    exactly the starts that some matching pick uses. */
module NearWalk {

  /** Stands for the next start of an operand that has none left. */
  const EXHAUSTED: int := 0x4000_0000_0000_0000

  ghost predicate Sorted(s: seq<int>) {
    forall i, j :: 0 <= i < j < |s| ==> s[i] <= s[j]
  }

  ghost predicate Ascending(s: seq<int>) {
    forall i, j :: 0 <= i < j < |s| ==> s[i] < s[j]
  }

  /** The operands of one NEAR group: where each starts, how many tokens each
      spans, and how far apart they may be. */
  datatype Group = Group(positions: seq<seq<int>>, lengths: seq<nat>, distance: nat) {

    ghost predicate Valid() {
      && |positions| == |lengths| > 0
      && (forall i :: 0 <= i < |positions| ==> Sorted(positions[i]))
      && (forall i, k :: 0 <= i < |positions| && 0 <= k < |positions[i]| ==> positions[i][k] < EXHAUSTED)
    }

    /** `at` is an index into every operand's starts. */
    ghost predicate IsPick(at: seq<nat>) {
      |at| == |positions| && forall j :: 0 <= j < |at| ==> at[j] < |positions[j]|
    }

    function Start(at: seq<nat>, j: nat): int
      requires |at| == |positions| && j < |at| && at[j] < |positions[j]|
    {
      positions[j][at[j]]
    }

    /** Every occurrence `at` picks ends at most `distance` tokens before `last`, and none starts after it. */
    ghost predicate Within(at: seq<nat>, last: int)
      requires Valid() && IsPick(at)
    {
      forall j :: 0 <= j < |at| ==> last - lengths[j] - distance <= Start(at, j) <= last
    }

    ghost predicate Matches(at: seq<nat>)
      requires Valid()
    {
      IsPick(at) && exists m :: 0 <= m < |at| && Within(at, Start(at, m))
    }

    /** The k-th start of operand `i` belongs to some matching pick. */
    ghost predicate InMatch(i: nat, k: nat)
      requires Valid() && i < |positions|
    {
      exists at :: Matches(at) && at[i] == k
    }

    /** `starts` lists, ascending and once each, the starts of operand `i` that belong to a match. */
    ghost predicate Exactly(i: nat, starts: seq<int>)
      requires Valid() && i < |positions|
    {
      && Ascending(starts)
      && (forall v :: v in starts ==> exists k :: 0 <= k < |positions[i]| && positions[i][k] == v && InMatch(i, k))
      && (forall k :: 0 <= k < |positions[i]| && InMatch(i, k) ==> positions[i][k] in starts)
    }

    ghost predicate ExactlyAll(kept: seq<seq<int>>)
      requires Valid()
    {
      |kept| == |positions| && forall i :: 0 <= i < |kept| ==> Exactly(i, kept[i])
    }

    // ----- What the walk keeps true of its cursors

    ghost predicate From(cursor: seq<nat>, at: seq<nat>) {
      |at| == |cursor| && forall j :: 0 <= j < |at| ==> cursor[j] <= at[j]
    }

    /** Some matching pick through the k-th start of operand `i` lies at or after every cursor. */
    ghost predicate Alive(cursor: seq<nat>, i: nat, k: nat)
      requires Valid() && i < |positions|
    {
      exists at :: Matches(at) && From(cursor, at) && at[i] == k
    }

    /** The start is in no match, or already kept, or still ahead. */
    ghost predicate Settled(cursor: seq<nat>, kept: seq<seq<int>>, i: nat, k: nat)
      requires Valid() && |kept| == |positions| && i < |positions| && k < |positions[i]|
    {
      InMatch(i, k) ==> positions[i][k] in kept[i] || Alive(cursor, i, k)
    }

    ghost predicate Accounted(cursor: seq<nat>, kept: seq<seq<int>>)
      requires Valid() && |kept| == |positions|
    {
      forall i, k :: 0 <= i < |positions| && 0 <= k < |positions[i]| ==> Settled(cursor, kept, i, k)
    }

    ghost predicate Drained(kept: seq<seq<int>>)
      requires Valid() && |kept| == |positions|
    {
      forall i, k :: 0 <= i < |positions| && 0 <= k < |positions[i]| && InMatch(i, k) ==> positions[i][k] in kept[i]
    }

    ghost predicate Sound(kept: seq<seq<int>>)
      requires Valid() && |kept| == |positions|
    {
      forall i, v :: 0 <= i < |kept| && v in kept[i] ==>
        exists k :: 0 <= k < |positions[i]| && positions[i][k] == v && InMatch(i, k)
    }

    /** Every kept list is ascending and ends at or before its operand's cursor. */
    ghost predicate Trailing(cursor: seq<nat>, kept: seq<seq<int>>)
      requires IsPick(cursor) && |kept| == |positions|
    {
      forall i :: 0 <= i < |kept| ==>
        Ascending(kept[i]) && (kept[i] != [] ==> kept[i][|kept[i]| - 1] <= Start(cursor, i))
    }

    function Lookahead(cursor: seq<nat>, i: nat): int
      requires |cursor| == |positions| && i < |cursor|
    {
      if cursor[i] + 1 < |positions[i]| then positions[i][cursor[i] + 1] else EXHAUSTED
    }

    /** `kept` accounts for every match once cursor `j` has left its start. */
    ghost predicate SafeAfter(cursor: seq<nat>, kept: seq<seq<int>>, j: nat)
      requires Valid() && IsPick(cursor) && |kept| == |positions| && j < |cursor|
    {
      if cursor[j] + 1 == |positions[j]| then Drained(kept) else Accounted(cursor[j := cursor[j] + 1], kept)
    }

    lemma LeaveIsSafe(cursor: seq<nat>, kept: seq<seq<int>>, j: nat)
      requires Valid() && IsPick(cursor) && |kept| == |positions| && j < |cursor|
      requires forall i, k :: 0 <= i < |positions| && 0 <= k < |positions[i]| && Alive(cursor, i, k) ==>
                 positions[i][k] in kept[i]
                 || (cursor[j] + 1 < |positions[j]| && Alive(cursor[j := cursor[j] + 1], i, k))
      requires Accounted(cursor, kept)
      ensures SafeAfter(cursor, kept, j)
    {
      forall i, k | 0 <= i < |positions| && 0 <= k < |positions[i]| && InMatch(i, k) && positions[i][k] !in kept[i]
        ensures cursor[j] + 1 < |positions[j]| && Alive(cursor[j := cursor[j] + 1], i, k)
      {
        assert Settled(cursor, kept, i, k);
      }
    }

    /** A start too far before a start the walk already reached is in no match still ahead. */
    lemma SkipIsSafe(cursor: seq<nat>, kept: seq<seq<int>>, j: nat, latest: int)
      requires Valid() && IsPick(cursor) && |kept| == |positions| && j < |cursor|
      requires exists m :: 0 <= m < |cursor| && latest <= Start(cursor, m)
      requires Start(cursor, j) < latest - lengths[j] - distance
      requires Accounted(cursor, kept)
      ensures SafeAfter(cursor, kept, j)
    {
      forall i, k | 0 <= i < |positions| && 0 <= k < |positions[i]| && Alive(cursor, i, k)
        ensures cursor[j] + 1 < |positions[j]| && Alive(cursor[j := cursor[j] + 1], i, k)
      {
        var at :| Matches(at) && From(cursor, at) && at[i] == k;
        Unreachable(cursor, at, j, latest);
        assert From(cursor[j := cursor[j] + 1], at);
      }
      LeaveIsSafe(cursor, kept, j);
    }

    lemma Unreachable(cursor: seq<nat>, at: seq<nat>, j: nat, latest: int)
      requires Valid() && IsPick(cursor) && j < |cursor|
      requires exists m :: 0 <= m < |cursor| && latest <= Start(cursor, m)
      requires Start(cursor, j) < latest - lengths[j] - distance
      requires Matches(at) && From(cursor, at)
      ensures cursor[j] < at[j]
    {
      var m :| 0 <= m < |cursor| && latest <= Start(cursor, m);
      var last :| 0 <= last < |at| && Within(at, Start(at, last));
      assert Start(cursor, m) <= Start(at, m) <= Start(at, last);
      assert Start(at, last) - lengths[j] - distance <= Start(at, j);
    }

    /** Once the current starts are kept, the cursor whose next start is smallest may move on:
        a match through the start it leaves can use the next one instead. */
    lemma AdvanceIsSafe(cursor: seq<nat>, kept: seq<seq<int>>, j: nat)
      requires Valid() && IsPick(cursor) && |kept| == |positions| && j < |cursor|
      requires forall i :: 0 <= i < |cursor| ==> Lookahead(cursor, j) <= Lookahead(cursor, i)
      requires forall i :: 0 <= i < |cursor| ==> Start(cursor, i) in kept[i]
      requires Accounted(cursor, kept)
      ensures SafeAfter(cursor, kept, j)
    {
      forall i, k | 0 <= i < |positions| && 0 <= k < |positions[i]| && Alive(cursor, i, k) && positions[i][k] !in kept[i]
        ensures cursor[j] + 1 < |positions[j]| && Alive(cursor[j := cursor[j] + 1], i, k)
      {
        assert Start(cursor, i) in kept[i];
        assert Lookahead(cursor, j) <= Lookahead(cursor, i);
        AliveMoves(cursor, i, k, j);
      }
      LeaveIsSafe(cursor, kept, j);
    }

    lemma AliveMoves(cursor: seq<nat>, i: nat, k: nat, j: nat)
      requires Valid() && IsPick(cursor) && j < |cursor| && i < |cursor|
      requires Alive(cursor, i, k) && k != cursor[i]
      requires Lookahead(cursor, j) <= Lookahead(cursor, i)
      ensures cursor[j] + 1 < |positions[j]| && Alive(cursor[j := cursor[j] + 1], i, k)
    {
      var at: seq<nat> :| Matches(at) && From(cursor, at) && at[i] == k;
      assert cursor[i] + 1 <= k < |positions[i]|;
      assert Lookahead(cursor, j) <= Start(at, i) < EXHAUSTED;
      assert cursor[j] + 1 < |positions[j]| && positions[j][cursor[j] + 1] <= Start(at, i);
      if at[j] == cursor[j] {
        PickMoves(at, i, j);
        AliveBy(cursor[j := cursor[j] + 1], at[j := at[j] + 1], i);
      } else {
        AliveBy(cursor[j := cursor[j] + 1], at, i);
      }
    }

    lemma AliveBy(cursor: seq<nat>, at: seq<nat>, i: nat)
      requires Valid() && Matches(at) && From(cursor, at) && i < |at|
      ensures Alive(cursor, i, at[i])
    {
    }

    /** A matching pick stays one when an operand moves to its next start, up to another chosen start. */
    lemma PickMoves(at: seq<nat>, i: nat, j: nat)
      requires Valid() && Matches(at)
      requires i < |at| && j < |at| && i != j
      requires at[j] + 1 < |positions[j]| && positions[j][at[j] + 1] <= Start(at, i)
      ensures Matches(at[j := at[j] + 1])
    {
      var last :| 0 <= last < |at| && Within(at, Start(at, last));
      var moved := at[j := at[j] + 1];
      assert Start(at, j) <= Start(moved, j) <= Start(at, i) <= Start(at, last);
      assert forall h :: 0 <= h < |at| && h != j ==> Start(moved, h) == Start(at, h);
      assert Within(moved, Start(moved, last));
    }

    /** How many cursor steps are left in total. */
    ghost function StepsLeft(cursor: seq<nat>, upto: nat): (r: nat)
      requires IsPick(cursor) && upto <= |cursor|
    {
      if upto == 0 then 0 else StepsLeft(cursor, upto - 1) + |positions[upto - 1]| - cursor[upto - 1]
    }

    lemma {:induction false} StepShrinks(cursor: seq<nat>, upto: nat, i: nat)
      requires IsPick(cursor) && i < |cursor| && upto <= |cursor| && cursor[i] + 1 < |positions[i]|
      ensures StepsLeft(cursor[i := cursor[i] + 1], upto) == StepsLeft(cursor, upto) - (if i < upto then 1 else 0)
    {
      if upto > 0 {
        StepShrinks(cursor, upto - 1, i);
      }
    }
  }

  /** The operand whose next start is smallest, the first of them on a tie. */
  method MinLookahead(g: Group, cursor: array<nat>) returns (best: nat)
    requires g.Valid() && g.IsPick(cursor[..])
    ensures best < cursor.Length
    ensures forall i :: 0 <= i < cursor.Length ==> g.Lookahead(cursor[..], best) <= g.Lookahead(cursor[..], i)
    ensures forall i :: 0 <= i < best ==> g.Lookahead(cursor[..], best) < g.Lookahead(cursor[..], i)
  {
    best := 0;
    for index := 1 to cursor.Length
      invariant best < index
      invariant forall i :: 0 <= i < index ==> g.Lookahead(cursor[..], best) <= g.Lookahead(cursor[..], i)
      invariant forall i :: 0 <= i < best ==> g.Lookahead(cursor[..], best) < g.Lookahead(cursor[..], i)
    {
      if g.Lookahead(cursor[..], index) < g.Lookahead(cursor[..], best) {
        best := index;
      }
    }
  }

  /** Moves cursor `index` past every start before `earliest`; `done` when it runs out of starts. */
  method SkipTo(g: Group, cursor: array<nat>, index: nat, latest: int, ghost kept: seq<seq<int>>) returns (done: bool)
    requires g.Valid() && g.IsPick(cursor[..]) && |kept| == |g.positions| && index < cursor.Length
    requires g.Accounted(cursor[..], kept) && g.Trailing(cursor[..], kept)
    requires exists m :: 0 <= m < cursor.Length && latest == g.Start(cursor[..], m)
    modifies cursor
    ensures done ==> g.Drained(kept)
    ensures !done ==> g.IsPick(cursor[..]) && g.Accounted(cursor[..], kept) && g.Trailing(cursor[..], kept)
    ensures !done ==> forall i :: 0 <= i < cursor.Length && i != index ==> cursor[i] == old(cursor[i])
    ensures !done ==> latest - g.lengths[index] - g.distance <= g.Start(cursor[..], index)
    ensures !done ==> exists m :: 0 <= m < cursor.Length && latest == g.Start(cursor[..], m)
    ensures !done ==> g.StepsLeft(cursor[..], cursor.Length) <= old(g.StepsLeft(cursor[..], cursor.Length))
    ensures !done && old(g.Start(cursor[..], index)) < latest - g.lengths[index] - g.distance ==>
              g.StepsLeft(cursor[..], cursor.Length) < old(g.StepsLeft(cursor[..], cursor.Length))
    ensures !done && old(g.Start(cursor[..], index)) >= latest - g.lengths[index] - g.distance ==>
              cursor[..] == old(cursor[..])
  {
    ghost var m :| 0 <= m < cursor.Length && latest == g.Start(cursor[..], m);
    while g.positions[index][cursor[index]] < latest - g.lengths[index] - g.distance
      invariant g.IsPick(cursor[..]) && g.Accounted(cursor[..], kept) && g.Trailing(cursor[..], kept)
      invariant latest == g.Start(cursor[..], m)
      invariant forall i :: 0 <= i < cursor.Length && i != index ==> cursor[i] == old(cursor[i])
      invariant cursor[..] == old(cursor[..])
                || g.StepsLeft(cursor[..], cursor.Length) < old(g.StepsLeft(cursor[..], cursor.Length))
      invariant old(g.Start(cursor[..], index)) >= latest - g.lengths[index] - g.distance ==>
                  cursor[..] == old(cursor[..])
      decreases g.StepsLeft(cursor[..], cursor.Length)
    {
      ghost var before := cursor[..];
      g.SkipIsSafe(before, kept, index, latest);
      cursor[index] := cursor[index] + 1;
      assert cursor[..] == before[index := before[index] + 1];
      if cursor[index] >= |g.positions[index]| {
        return true;
      }
      g.StepShrinks(before, cursor.Length, index);
    }
    return false;
  }

  /** Moves the cursors on until the current starts match; `done` when an operand runs out first. */
  method Align(g: Group, cursor: array<nat>, ghost kept: seq<seq<int>>) returns (done: bool)
    requires g.Valid() && g.IsPick(cursor[..]) && |kept| == |g.positions|
    requires g.Accounted(cursor[..], kept) && g.Trailing(cursor[..], kept)
    modifies cursor
    ensures done ==> g.Drained(kept)
    ensures !done ==> g.Matches(cursor[..]) && g.Accounted(cursor[..], kept) && g.Trailing(cursor[..], kept)
    ensures !done ==> g.StepsLeft(cursor[..], cursor.Length) <= old(g.StepsLeft(cursor[..], cursor.Length))
  {
    var n := cursor.Length;
    var latest := g.positions[0][cursor[0]];
    var matched := false;
    assert latest == g.Start(cursor[..], 0);
    while !matched
      invariant g.IsPick(cursor[..]) && g.Accounted(cursor[..], kept) && g.Trailing(cursor[..], kept)
      invariant exists m :: 0 <= m < n && latest == g.Start(cursor[..], m)
      invariant matched ==> g.Within(cursor[..], latest)
      invariant g.StepsLeft(cursor[..], n) <= old(g.StepsLeft(cursor[..], n))
      decreases g.StepsLeft(cursor[..], n), EXHAUSTED - latest, !matched
    {
      matched := true;
      ghost var steps, reached := g.StepsLeft(cursor[..], n), latest;
      for index := 0 to n
        invariant g.IsPick(cursor[..]) && g.Accounted(cursor[..], kept) && g.Trailing(cursor[..], kept)
        invariant exists m :: 0 <= m < n && latest == g.Start(cursor[..], m)
        invariant matched ==> forall i :: 0 <= i < index ==>
                    latest - g.lengths[i] - g.distance <= g.Start(cursor[..], i) <= latest
        invariant g.StepsLeft(cursor[..], n) <= steps && reached <= latest
        invariant !matched ==> g.StepsLeft(cursor[..], n) < steps || reached < latest
      {
        var earliest := latest - g.lengths[index] - g.distance;
        if g.positions[index][cursor[index]] < earliest || g.positions[index][cursor[index]] > latest {
          matched := false;
          done := SkipTo(g, cursor, index, latest, kept);
          if done {
            return;
          }
          latest := if latest >= g.positions[index][cursor[index]] then latest else g.positions[index][cursor[index]];
        }
      }
    }
    return false;
  }

  /** Keeps every current start that its operand has not just kept. */
  method NoteCurrent(g: Group, cursor: array<nat>, kept: array<seq<int>>)
    requires g.Valid() && g.Matches(cursor[..]) && kept.Length == cursor.Length
    modifies kept
    ensures cursor[..] == old(cursor[..])
    ensures forall i :: 0 <= i < kept.Length ==> kept[i] == Noted(old(kept[i]), g.Start(cursor[..], i))
  {
    for index := 0 to cursor.Length
      invariant cursor[..] == old(cursor[..])
      invariant forall i :: 0 <= i < index ==> kept[i] == Noted(old(kept[i]), g.Start(cursor[..], i))
      invariant forall i :: index <= i < kept.Length ==> kept[i] == old(kept[i])
    {
      if kept[index] == [] || kept[index][|kept[index]| - 1] != g.positions[index][cursor[index]] {
        kept[index] := kept[index] + [g.positions[index][cursor[index]]];
      }
    }
  }

  /** Moves on the cursor whose next start is smallest; `done` when that operand has none left. */
  method AdvanceSmallest(g: Group, cursor: array<nat>, ghost kept: seq<seq<int>>) returns (done: bool)
    requires g.Valid() && g.IsPick(cursor[..]) && |kept| == |g.positions|
    requires g.Accounted(cursor[..], kept) && g.Trailing(cursor[..], kept)
    requires forall i :: 0 <= i < cursor.Length ==> g.Start(cursor[..], i) in kept[i]
    modifies cursor
    ensures done ==> g.Drained(kept)
    ensures !done ==> g.IsPick(cursor[..]) && g.Accounted(cursor[..], kept) && g.Trailing(cursor[..], kept)
    ensures !done ==> g.StepsLeft(cursor[..], cursor.Length) < old(g.StepsLeft(cursor[..], cursor.Length))
  {
    ghost var at := cursor[..];
    var advancing := MinLookahead(g, cursor);
    assert cursor[..] == at;
    g.AdvanceIsSafe(at, kept, advancing);
    cursor[advancing] := cursor[advancing] + 1;
    assert cursor[..] == at[advancing := at[advancing] + 1];
    if cursor[advancing] >= |g.positions[advancing]| {
      return true;
    }
    g.StepShrinks(at, cursor.Length, advancing);
    return false;
  }

  method WalkNear(g: Group, kept: array<seq<int>>)
    requires g.Valid() && kept.Length == |g.positions|
    requires forall i :: 0 <= i < |g.positions| ==> |g.positions[i]| > 0 && kept[i] == []
    modifies kept
    ensures g.ExactlyAll(kept[..])
  {
    var cursor := new nat[|g.positions|](_ => 0);
    FreshlyAccounted(g, cursor[..], kept[..]);
    while true
      invariant kept.Length == |g.positions| && g.IsPick(cursor[..])
      invariant g.Accounted(cursor[..], kept[..]) && g.Sound(kept[..]) && g.Trailing(cursor[..], kept[..])
      decreases g.StepsLeft(cursor[..], cursor.Length)
    {
      var done := Round(g, cursor, kept);
      if done {
        return;
      }
    }
  }

  /** One round: find the next match, keep its starts, and move the smallest next start up. */
  method Round(g: Group, cursor: array<nat>, kept: array<seq<int>>) returns (done: bool)
    requires g.Valid() && kept.Length == |g.positions| && g.IsPick(cursor[..])
    requires g.Accounted(cursor[..], kept[..]) && g.Sound(kept[..]) && g.Trailing(cursor[..], kept[..])
    modifies cursor, kept
    ensures done ==> g.ExactlyAll(kept[..])
    ensures !done ==> g.IsPick(cursor[..])
    ensures !done ==> g.Accounted(cursor[..], kept[..]) && g.Sound(kept[..]) && g.Trailing(cursor[..], kept[..])
    ensures !done ==> g.StepsLeft(cursor[..], cursor.Length) < old(g.StepsLeft(cursor[..], cursor.Length))
  {
    ghost var before := kept[..];
    TrailingAscends(g, cursor[..], before);
    done := Align(g, cursor, before);
    assert kept[..] == before;
    if !done {
      ghost var at := cursor[..];
      NoteCurrent(g, cursor, kept);
      ghost var starts := kept[..];
      NotingIsSafe(g, at, before, starts);
      TrailingAscends(g, at, starts);
      done := AdvanceSmallest(g, cursor, starts);
      assert kept[..] == starts;
    }
  }

  lemma TrailingAscends(g: Group, cursor: seq<nat>, kept: seq<seq<int>>)
    requires g.Valid() && g.IsPick(cursor) && |kept| == |g.positions| && g.Trailing(cursor, kept)
    ensures forall i :: 0 <= i < |kept| ==> Ascending(kept[i])
    ensures g.Sound(kept) && g.Drained(kept) ==> g.ExactlyAll(kept)
  {
  }

  ghost function Noted(starts: seq<int>, start: int): seq<int> {
    if starts == [] || starts[|starts| - 1] != start then starts + [start] else starts
  }

  ghost predicate NotedAll(g: Group, cursor: seq<nat>, before: seq<seq<int>>, kept: seq<seq<int>>)
    requires g.Valid() && g.IsPick(cursor)
  {
    |before| == |kept| == |g.positions|
    && forall i :: 0 <= i < |kept| ==> kept[i] == Noted(before[i], g.Start(cursor, i))
  }

  lemma NotingIsSafe(g: Group, cursor: seq<nat>, before: seq<seq<int>>, kept: seq<seq<int>>)
    requires g.Valid() && g.Matches(cursor) && NotedAll(g, cursor, before, kept)
    requires g.Accounted(cursor, before) && g.Sound(before) && g.Trailing(cursor, before)
    ensures g.Accounted(cursor, kept) && g.Sound(kept) && g.Trailing(cursor, kept)
    ensures forall i :: 0 <= i < |cursor| ==> g.Start(cursor, i) in kept[i]
  {
    NotingTrails(g, cursor, before, kept);
    NotingIsSound(g, cursor, before, kept);
    forall i, k | 0 <= i < |g.positions| && 0 <= k < |g.positions[i]|
      ensures g.Settled(cursor, kept, i, k)
    {
      assert g.Settled(cursor, before, i, k);
      NotedHolds(before[i], g.Start(cursor, i));
    }
  }

  lemma NotingTrails(g: Group, cursor: seq<nat>, before: seq<seq<int>>, kept: seq<seq<int>>)
    requires g.Valid() && g.IsPick(cursor) && NotedAll(g, cursor, before, kept)
    requires g.Trailing(cursor, before)
    ensures g.Trailing(cursor, kept)
    ensures forall i :: 0 <= i < |cursor| ==> g.Start(cursor, i) in kept[i]
  {
    forall i | 0 <= i < |kept|
      ensures Ascending(kept[i]) && kept[i] != [] && kept[i][|kept[i]| - 1] == g.Start(cursor, i)
    {
      NotedHolds(before[i], g.Start(cursor, i));
    }
  }

  lemma NotingIsSound(g: Group, cursor: seq<nat>, before: seq<seq<int>>, kept: seq<seq<int>>)
    requires g.Valid() && g.Matches(cursor) && NotedAll(g, cursor, before, kept)
    requires g.Sound(before) && g.Trailing(cursor, before)
    ensures g.Sound(kept)
  {
    forall i, v | 0 <= i < |kept| && v in kept[i]
      ensures exists k :: 0 <= k < |g.positions[i]| && g.positions[i][k] == v && g.InMatch(i, k)
    {
      NotedHolds(before[i], g.Start(cursor, i));
      if v == g.Start(cursor, i) {
        assert g.InMatch(i, cursor[i]);
      } else {
        assert v in before[i];
      }
    }
  }

  lemma NotedHolds(starts: seq<int>, start: int)
    requires Ascending(starts) && (starts != [] ==> starts[|starts| - 1] <= start)
    ensures Ascending(Noted(starts, start)) && Noted(starts, start)[|Noted(starts, start)| - 1] == start
    ensures forall v :: v in Noted(starts, start) <==> v in starts || v == start
  {
  }

  lemma FreshlyAccounted(g: Group, cursor: seq<nat>, kept: seq<seq<int>>)
    requires g.Valid() && |kept| == |cursor| == |g.positions|
    requires forall i :: 0 <= i < |g.positions| ==> |g.positions[i]| > 0 && kept[i] == [] && cursor[i] == 0
    ensures g.IsPick(cursor)
    ensures g.Accounted(cursor, kept) && g.Sound(kept) && g.Trailing(cursor, kept)
  {
    forall i, k | 0 <= i < |g.positions| && 0 <= k < |g.positions[i]| && g.InMatch(i, k)
      ensures g.Alive(cursor, i, k)
    {
      var at :| g.Matches(at) && at[i] == k;
      assert g.From(cursor, at);
    }
  }
}
