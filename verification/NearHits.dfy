/** The occurrences a NEAR group keeps (search/evaluate.py): packing, trimming, and dropped operands. */
module NearHits {
  import opened Query
  import opened NearWalk

  /** Where an operand occurs: `[start, stop)` token ranges per field. */
  type Hits = map<Field, seq<(nat, nat)>>

  const FIELDS := [Title, Abstract, Body]

  function Index(field: Field): (r: nat)
    ensures r < |FIELDS| && FIELDS[r] == field
  {
    match field
    case Title => 0
    case Abstract => 1
    case Body => 2
  }

  // ----- One number per occurrence: the field in the high bits, the start in the low 32

  const COLUMN: int := 0x1_0000_0000

  function Pack(field: Field, start: nat): (r: int)
    requires start < COLUMN
    ensures 0 <= r < |FIELDS| * COLUMN && r / COLUMN == Index(field) && r % COLUMN == start
  {
    Index(field) * COLUMN + start
  }

  ghost predicate Packable(hits: Hits) {
    forall f, r :: f in hits && r in hits[f] ==> r.0 < COLUMN
  }

  function PackRanges(field: Field, ranges: seq<(nat, nat)>): (r: seq<int>)
    requires forall x :: x in ranges ==> x.0 < COLUMN
    ensures |r| == |ranges| && forall k :: 0 <= k < |r| ==> r[k] == Pack(field, ranges[k].0)
  {
    seq(|ranges|, k requires 0 <= k < |ranges| => Pack(field, ranges[k].0))
  }

  function PackField(hits: Hits, field: Field): (r: seq<int>)
    requires Packable(hits)
    ensures forall p :: p in r <==> exists s: nat :: s < COLUMN && p == Pack(field, s) && StartsIn(hits, field, s)
  {
    if field in hits then
      var r := PackRanges(field, hits[field]);
      assert forall k :: 0 <= k < |r| ==> hits[field][k] in hits[field] && StartsIn(hits, field, hits[field][k].0);
      assert forall s: nat :: StartsIn(hits, field, s) ==> exists k :: 0 <= k < |r| && hits[field][k].0 == s;
      r
    else []
  }

  function Packed(hits: Hits): seq<int>
    requires Packable(hits)
  {
    PackField(hits, Title) + PackField(hits, Abstract) + PackField(hits, Body)
  }

  function Insert(x: int, s: seq<int>): (r: seq<int>)
    requires Sorted(s)
    ensures Sorted(r) && forall v :: v in r <==> v == x || v in s
  {
    if s == [] || x <= s[0] then [x] + s
    else
      var rest := Insert(x, s[1..]);
      assert forall j :: 0 <= j < |s[1..]| ==> s[0] <= s[1..][j];
      assert forall j :: 0 <= j < |rest| ==> rest[j] in rest;
      [s[0]] + rest
  }

  function Sort(s: seq<int>): (r: seq<int>)
    ensures Sorted(r) && forall v :: v in r <==> v in s
    ensures |r| == 0 <==> |s| == 0
  {
    if s == [] then [] else Insert(s[0], Sort(s[1..]))
  }

  /** Some occurrence of the operand starts at token `start` of `field`. */
  ghost predicate StartsIn(hits: Hits, field: Field, start: nat) {
    field in hits && exists r :: r in hits[field] && r.0 == start
  }

  function Grown(hits: Hits, packed: int, length: nat): Hits
    requires 0 <= packed < |FIELDS| * COLUMN
  {
    var field, start := FIELDS[packed / COLUMN], packed % COLUMN;
    hits[field := (if field in hits then hits[field] else []) + [(start, start + length)]]
  }

  ghost predicate AreColumns(starts: seq<int>) {
    forall k :: 0 <= k < |starts| ==> 0 <= starts[k] < |FIELDS| * COLUMN
  }

  function UnpackedHits(starts: seq<int>, length: nat): Hits
    requires AreColumns(starts)
  {
    if starts == [] then map[]
    else Grown(UnpackedHits(starts[..|starts| - 1], length), starts[|starts| - 1], length)
  }

  ghost predicate HasRange(hits: Hits, field: Field, start: nat, stop: nat) {
    field in hits && (start, stop) in hits[field]
  }

  lemma GrownHasRange(hits: Hits, packed: int, length: nat, f: Field, s: nat, e: nat)
    requires 0 <= packed < |FIELDS| * COLUMN
    ensures HasRange(Grown(hits, packed, length), f, s, e) <==>
            HasRange(hits, f, s, e) || (e == s + length && s < COLUMN && Pack(f, s) == packed)
  {
    assert packed == (packed / COLUMN) * COLUMN + packed % COLUMN;
  }

  lemma {:induction false} UnpackedIsExact(starts: seq<int>, length: nat)
    requires AreColumns(starts)
    ensures forall f: Field, s: nat, e: nat ::
              HasRange(UnpackedHits(starts, length), f, s, e) <==>
              e == s + length && s < COLUMN && Pack(f, s) in starts
    ensures forall f :: f in UnpackedHits(starts, length) ==> UnpackedHits(starts, length)[f] != []
  {
    if starts != [] {
      var front, packed := starts[..|starts| - 1], starts[|starts| - 1];
      UnpackedIsExact(front, length);
      assert starts == front + [packed];
      forall f: Field, s: nat, e: nat {
        GrownHasRange(UnpackedHits(front, length), packed, length, f, s, e);
      }
    }
  }

  method Unpack(starts: seq<int>, length: nat) returns (hits: Hits)
    requires AreColumns(starts)
    ensures hits == UnpackedHits(starts, length)
  {
    hits := map[];
    for k := 0 to |starts|
      invariant hits == UnpackedHits(starts[..k], length)
    {
      var packed := starts[k];
      var field, start := FIELDS[packed / COLUMN], packed % COLUMN;
      assert starts[..k + 1][..k] == starts[..k];
      hits := hits[field := (if field in hits then hits[field] else []) + [(start, start + length)]];
    }
    assert starts[..|starts|] == starts;
  }

  // ----- The occurrences FTS5 counts in a NEAR group

  ghost predicate AllPackable(found: seq<Hits>) {
    forall i :: 0 <= i < |found| ==> Packable(found[i])
  }

  function Positions(found: seq<Hits>): (r: seq<seq<int>>)
    requires AllPackable(found)
    ensures |r| == |found| && forall i :: 0 <= i < |r| ==> r[i] == Sort(Packed(found[i]))
  {
    seq(|found|, i requires 0 <= i < |found| => Sort(Packed(found[i])))
  }

  function GroupOf(found: seq<Hits>, lengths: seq<nat>, distance: nat): (g: Group)
    requires AllPackable(found)
  {
    Group(Positions(found), lengths, distance)
  }

  lemma GroupIsValid(found: seq<Hits>, lengths: seq<nat>, distance: nat)
    requires AllPackable(found) && |found| == |lengths| > 0
    ensures GroupOf(found, lengths, distance).Valid()
    ensures forall i :: 0 <= i < |found| ==> AreColumns(Positions(found)[i])
  {
    forall i, k | 0 <= i < |found| && 0 <= k < |Positions(found)[i]|
      ensures 0 <= Positions(found)[i][k] < |FIELDS| * COLUMN
    {
      assert Positions(found)[i][k] in Packed(found[i]);
    }
  }

  /** The starts of operand `i` in some match, among its first `upto`. */
  ghost function KeptStarts(g: Group, i: nat, upto: nat): (r: seq<int>)
    requires g.Valid() && i < |g.positions| && upto <= |g.positions[i]|
  {
    if upto == 0 then []
    else if g.InMatch(i, upto - 1) then Noted(KeptStarts(g, i, upto - 1), g.positions[i][upto - 1])
    else KeptStarts(g, i, upto - 1)
  }

  lemma {:induction false} KeptStartsAreExact(g: Group, i: nat, upto: nat)
    requires g.Valid() && i < |g.positions| && upto <= |g.positions[i]|
    ensures Ascending(KeptStarts(g, i, upto))
    ensures forall v :: v in KeptStarts(g, i, upto) <==>
                        exists k :: 0 <= k < upto && g.positions[i][k] == v && g.InMatch(i, k)
  {
    if upto > 0 {
      KeptStartsAreExact(g, i, upto - 1);
      var rest, start := KeptStarts(g, i, upto - 1), g.positions[i][upto - 1];
      if rest != [] {
        assert rest[|rest| - 1] in rest;
      }
      NotedHolds(rest, start);
    }
  }

  lemma {:induction false} AscendingIsUnique(a: seq<int>, b: seq<int>)
    requires Ascending(a) && Ascending(b) && forall v :: v in a <==> v in b
    ensures a == b
  {
    assert (a == [] || a[0] in a) && (b == [] || b[0] in b);
    if a != [] {
      assert forall v :: v in a[1..] <==> v in a && v != a[0];
      assert forall v :: v in b[1..] <==> v in b && v != b[0];
      AscendingIsUnique(a[1..], b[1..]);
    }
  }

  /** What the walk keeps of each operand, back in fields. */
  ghost function Trimmed(found: seq<Hits>, lengths: seq<nat>, distance: nat): (r: seq<Hits>)
    requires AllPackable(found) && |found| == |lengths| > 0
    ensures |r| == |found|
  {
    GroupIsValid(found, lengths, distance);
    var g := GroupOf(found, lengths, distance);
    KeptAreColumns(found, lengths, distance);
    seq(|found|, i requires 0 <= i < |found| => UnpackedHits(KeptStarts(g, i, |g.positions[i]|), lengths[i]))
  }

  lemma KeptAreColumns(found: seq<Hits>, lengths: seq<nat>, distance: nat)
    requires AllPackable(found) && |found| == |lengths| > 0
    ensures GroupOf(found, lengths, distance).Valid()
    ensures forall i :: 0 <= i < |found| ==>
              AreColumns(KeptStarts(GroupOf(found, lengths, distance), i, |Positions(found)[i]|))
  {
    GroupIsValid(found, lengths, distance);
    var g := GroupOf(found, lengths, distance);
    forall i | 0 <= i < |found|
      ensures AreColumns(KeptStarts(g, i, |g.positions[i]|))
    {
      var starts := KeptStarts(g, i, |g.positions[i]|);
      KeptStartsAreExact(g, i, |g.positions[i]|);
      forall k | 0 <= k < |starts|
        ensures 0 <= starts[k] < |FIELDS| * COLUMN
      {
        assert starts[k] in starts;
      }
    }
  }

  method WalkGroup(g: Group) returns (kept: seq<seq<int>>)
    requires g.Valid()
    ensures |kept| == |g.positions| && forall i :: 0 <= i < |kept| ==> kept[i] == KeptStarts(g, i, |g.positions[i]|)
  {
    var lists := new seq<int>[|g.positions|](_ => []);
    if forall i :: 0 <= i < |g.positions| ==> g.positions[i] != [] {
      WalkNear(g, lists);
    } else {
      EmptyOperandKeepsNothing(g, lists[..]);
    }
    ExactlyIsKept(g, lists[..]);
    return lists[..];
  }

  method UnpackAll(kept: seq<seq<int>>, lengths: seq<nat>) returns (trimmed: seq<Hits>)
    requires |kept| == |lengths| && forall i :: 0 <= i < |kept| ==> AreColumns(kept[i])
    ensures |trimmed| == |kept| && forall i :: 0 <= i < |kept| ==> trimmed[i] == UnpackedHits(kept[i], lengths[i])
  {
    trimmed := [];
    for i := 0 to |kept|
      invariant |trimmed| == i && forall j :: 0 <= j < i ==> trimmed[j] == UnpackedHits(kept[j], lengths[j])
    {
      var hits := Unpack(kept[i], lengths[i]);
      trimmed := trimmed + [hits];
    }
  }

  method TrimNear(found: seq<Hits>, lengths: seq<nat>, distance: nat) returns (trimmed: seq<Hits>)
    requires AllPackable(found) && |found| == |lengths| > 0
    ensures trimmed == Trimmed(found, lengths, distance)
  {
    KeptAreColumns(found, lengths, distance);
    var kept := WalkGroup(GroupOf(found, lengths, distance));
    if kept[0] == [] {
      NothingTrimmed(found, lengths, distance);
      return seq(|found|, _ => map[]);
    }
    trimmed := UnpackAll(kept, lengths);
  }

  lemma NothingTrimmed(found: seq<Hits>, lengths: seq<nat>, distance: nat)
    requires AllPackable(found) && |found| == |lengths| > 0
    requires GroupOf(found, lengths, distance).Valid()
    requires KeptStarts(GroupOf(found, lengths, distance), 0, |Positions(found)[0]|) == []
    ensures Trimmed(found, lengths, distance) == seq(|found|, _ => map[])
  {
    NoneKept(GroupOf(found, lengths, distance), 0);
  }

  lemma EmptyOperandKeepsNothing(g: Group, kept: seq<seq<int>>)
    requires g.Valid() && |kept| == |g.positions| && (forall i :: 0 <= i < |kept| ==> kept[i] == [])
    requires exists i :: 0 <= i < |g.positions| && g.positions[i] == []
    ensures g.ExactlyAll(kept)
  {
  }

  lemma ExactlyIsKept(g: Group, kept: seq<seq<int>>)
    requires g.Valid() && g.ExactlyAll(kept)
    ensures forall i :: 0 <= i < |kept| ==> kept[i] == KeptStarts(g, i, |g.positions[i]|)
  {
    forall i | 0 <= i < |kept|
      ensures kept[i] == KeptStarts(g, i, |g.positions[i]|)
    {
      KeptStartsAreExact(g, i, |g.positions[i]|);
      AscendingIsUnique(kept[i], KeptStarts(g, i, |g.positions[i]|));
    }
  }

  lemma MatchUsesAll(g: Group, i: nat, k: nat, other: nat) returns (start: int)
    requires g.Valid() && i < |g.positions| && other < |g.positions| && g.InMatch(i, k)
    ensures start in KeptStarts(g, other, |g.positions[other]|)
  {
    var at: seq<nat> :| g.Matches(at) && at[i] == k;
    start := g.positions[other][at[other]];
    KeptStartsAreExact(g, other, |g.positions[other]|);
    assert g.InMatch(other, at[other]);
  }

  /** A match uses every operand, so an operand that keeps nothing leaves every operand with nothing. */
  lemma NoneKept(g: Group, quiet: nat)
    requires g.Valid() && quiet < |g.positions| && KeptStarts(g, quiet, |g.positions[quiet]|) == []
    ensures forall i :: 0 <= i < |g.positions| ==> KeptStarts(g, i, |g.positions[i]|) == []
  {
    forall i | 0 <= i < |g.positions|
      ensures KeptStarts(g, i, |g.positions[i]|) == []
    {
      var starts := KeptStarts(g, i, |g.positions[i]|);
      KeptStartsAreExact(g, i, |g.positions[i]|);
      if starts != [] {
        assert starts[0] in starts;
        var k :| 0 <= k < |g.positions[i]| && g.InMatch(i, k);
        var start := MatchUsesAll(g, i, k, quiet);
      }
    }
  }

  // ----- Occurrences of different fields are never near each other

  ghost predicate AllStartIn(found: seq<Hits>, field: Field, starts: seq<nat>) {
    |starts| == |found| && forall j :: 0 <= j < |starts| ==> StartsIn(found[j], field, starts[j])
  }

  /** One start per operand, all in `field`, none ending more than `distance` tokens before the last start. */
  ghost predicate NearInField(found: seq<Hits>, lengths: seq<nat>, distance: nat, field: Field, starts: seq<nat>)
    requires |found| == |lengths|
  {
    && AllStartIn(found, field, starts)
    && exists m :: 0 <= m < |starts| && CloseTo(starts, lengths, distance, starts[m])
  }

  ghost predicate PartOfNear(found: seq<Hits>, lengths: seq<nat>, distance: nat, i: nat, field: Field, start: nat)
    requires |found| == |lengths| && i < |found|
  {
    exists starts :: NearInField(found, lengths, distance, field, starts) && starts[i] == start
  }

  /** The occurrences kept are exactly those of the documented NEAR relation, field by field. */
  ghost predicate TrimsExactly(found: seq<Hits>, lengths: seq<nat>, distance: nat)
    requires AllPackable(found) && |found| == |lengths| > 0
  {
    forall i: nat, f: Field, s: nat, e: nat :: i < |found| ==>
      (HasRange(Trimmed(found, lengths, distance)[i], f, s, e) <==>
       e == s + lengths[i] && PartOfNear(found, lengths, distance, i, f, s))
  }

  /** Every occurrence ends within the first `size` tokens of its field. */
  ghost predicate FitsIn(found: seq<Hits>, lengths: seq<nat>, size: nat)
    requires |found| == |lengths|
  {
    forall i: nat, f: Field, s: nat :: i < |found| && StartsIn(found[i], f, s) ==> s + lengths[i] <= size
  }

  lemma PositionsHold(found: seq<Hits>, i: nat, f: Field, s: nat)
    requires AllPackable(found) && i < |found| && s < COLUMN
    ensures Pack(f, s) in Positions(found)[i] <==> StartsIn(found[i], f, s)
  {
    assert Positions(found)[i] == Sort(Packed(found[i]));
    PackIsInjective();
  }

  lemma PackIsInjective()
    ensures forall f: Field, s: nat, f': Field, s': nat ::
              s < COLUMN && s' < COLUMN && Pack(f, s) == Pack(f', s') ==> f == f' && s == s'
  {
    forall f: Field, s: nat, f': Field, s': nat | s < COLUMN && s' < COLUMN && Pack(f, s) == Pack(f', s')
      ensures f == f' && s == s'
    {
      assert FIELDS[Index(f)] == FIELDS[Index(f')];
    }
  }

  lemma PositionUnpacks(found: seq<Hits>, i: nat, k: nat) returns (f: Field, s: nat)
    requires AllPackable(found) && i < |found| && k < |Positions(found)[i]|
    ensures s < COLUMN && Positions(found)[i][k] == Pack(f, s) && StartsIn(found[i], f, s)
  {
    var p := Positions(found)[i][k];
    assert p in Packed(found[i]);
    if p in PackField(found[i], Title) {
      f := Title;
    } else if p in PackField(found[i], Abstract) {
      f := Abstract;
    } else {
      f := Body;
    }
    s :| s < COLUMN && p == Pack(f, s) && StartsIn(found[i], f, s);
  }

  lemma TrimmedHasRange(found: seq<Hits>, lengths: seq<nat>, distance: nat, i: nat, f: Field, s: nat, e: nat)
    requires AllPackable(found) && |found| == |lengths| > 0 && i < |found|
    ensures GroupOf(found, lengths, distance).Valid()
    ensures HasRange(Trimmed(found, lengths, distance)[i], f, s, e) <==>
            e == s + lengths[i] && s < COLUMN &&
            exists k :: 0 <= k < |Positions(found)[i]| && Positions(found)[i][k] == Pack(f, s)
                        && GroupOf(found, lengths, distance).InMatch(i, k)
  {
    KeptAreColumns(found, lengths, distance);
    var g := GroupOf(found, lengths, distance);
    KeptStartsAreExact(g, i, |g.positions[i]|);
    UnpackedIsExact(KeptStarts(g, i, |g.positions[i]|), lengths[i]);
  }

  /** The start of operand `j` in a pick of packed starts. */
  function StartIn(found: seq<Hits>, at: seq<nat>, j: nat): nat
    requires AllPackable(found) && j < |found| == |at| && at[j] < |Positions(found)[j]|
  {
    Positions(found)[j][at[j]] % COLUMN
  }

  lemma OneStaysInField(found: seq<Hits>, lengths: seq<nat>, distance: nat, size: nat, at: seq<nat>, m: nat, f: Field, j: nat)
    requires AllPackable(found) && |found| == |lengths| == |at| && m < |found| && j < |found|
    requires FitsIn(found, lengths, size) && size + distance < COLUMN
    requires forall h :: 0 <= h < |found| ==> at[h] < |Positions(found)[h]|
    requires Positions(found)[m][at[m]] == Pack(f, StartIn(found, at, m))
    requires Positions(found)[m][at[m]] - lengths[j] - distance <= Positions(found)[j][at[j]] <= Positions(found)[m][at[m]]
    ensures Positions(found)[j][at[j]] == Pack(f, StartIn(found, at, j))
    ensures StartsIn(found[j], f, StartIn(found, at, j))
  {
    var f', s := PositionUnpacks(found, j, at[j]);
    assert s + lengths[j] <= size;
    ReachStaysInField(f', s, f, StartIn(found, at, m), lengths[j] + distance);
  }

  lemma ReachStaysInField(f: Field, s: nat, g: Field, last: nat, reach: nat)
    requires s < COLUMN && last < COLUMN && s + reach < COLUMN
    requires Pack(g, last) - reach <= Pack(f, s) <= Pack(g, last)
    ensures f == g
  {
    assert Index(f) < Index(g) ==> (Index(f) + 1) * COLUMN <= Index(g) * COLUMN;
    assert Index(g) < Index(f) ==> (Index(g) + 1) * COLUMN <= Index(f) * COLUMN;
    assert FIELDS[Index(f)] == f && FIELDS[Index(g)] == g;
  }

  /** `at` picks the packed forms of `starts`, all in one field. */
  ghost predicate PicksIn(found: seq<Hits>, at: seq<nat>, f: Field, starts: seq<nat>)
    requires AllPackable(found)
  {
    |at| == |starts| == |found|
    && forall j :: 0 <= j < |at| ==> starts[j] < COLUMN && at[j] < |Positions(found)[j]|
                                     && Positions(found)[j][at[j]] == Pack(f, starts[j])
  }

  ghost predicate CloseTo(starts: seq<nat>, lengths: seq<nat>, distance: nat, last: nat)
    requires |starts| == |lengths|
  {
    forall j :: 0 <= j < |starts| ==> last - lengths[j] - distance <= starts[j] <= last
  }

  /** Within one field, packing shifts every start alike. */
  lemma WithinOneField(found: seq<Hits>, lengths: seq<nat>, distance: nat, at: seq<nat>, f: Field, starts: seq<nat>, m: nat)
    requires AllPackable(found) && |found| == |lengths| > 0 && PicksIn(found, at, f, starts) && m < |at|
    requires GroupOf(found, lengths, distance).Valid()
    ensures GroupOf(found, lengths, distance).IsPick(at)
    ensures GroupOf(found, lengths, distance).Within(at, Positions(found)[m][at[m]]) <==>
            CloseTo(starts, lengths, distance, starts[m])
  {
    var g := GroupOf(found, lengths, distance);
    assert forall j :: 0 <= j < |at| ==> g.Start(at, j) == Pack(f, starts[j]);
    assert forall j :: 0 <= j < |at| ==> Pack(f, starts[j]) + starts[m] == Pack(f, starts[m]) + starts[j];
  }

  lemma PickStaysInField(found: seq<Hits>, lengths: seq<nat>, distance: nat, size: nat, at: seq<nat>, m: nat)
    returns (f: Field, starts: seq<nat>)
    requires AllPackable(found) && |found| == |lengths| > 0 && m < |found|
    requires FitsIn(found, lengths, size) && size + distance < COLUMN
    requires GroupOf(found, lengths, distance).Valid() && GroupOf(found, lengths, distance).IsPick(at)
    requires GroupOf(found, lengths, distance).Within(at, GroupOf(found, lengths, distance).Start(at, m))
    ensures PicksIn(found, at, f, starts)
    ensures forall j :: 0 <= j < |starts| ==> StartsIn(found[j], f, starts[j])
  {
    var g := GroupOf(found, lengths, distance);
    var last: nat;
    f, last := PositionUnpacks(found, m, at[m]);
    starts := seq(|at|, j requires 0 <= j < |at| => StartIn(found, at, j));
    forall j | 0 <= j < |at|
      ensures Positions(found)[j][at[j]] == Pack(f, starts[j]) && StartsIn(found[j], f, starts[j])
    {
      assert g.Start(at, j) == Positions(found)[j][at[j]];
      OneStaysInField(found, lengths, distance, size, at, m, f, j);
    }
  }

  /** A pick of packed starts that matches stays in one field, when fields are too far apart to reach across. */
  lemma MatchStaysInField(found: seq<Hits>, lengths: seq<nat>, distance: nat, size: nat, at: seq<nat>)
    returns (f: Field, starts: seq<nat>)
    requires AllPackable(found) && |found| == |lengths| > 0
    requires FitsIn(found, lengths, size) && size + distance < COLUMN
    requires GroupOf(found, lengths, distance).Valid() && GroupOf(found, lengths, distance).Matches(at)
    ensures NearInField(found, lengths, distance, f, starts) && PicksIn(found, at, f, starts)
  {
    var g := GroupOf(found, lengths, distance);
    var m: nat :| m < |at| && g.Within(at, g.Start(at, m));
    f, starts := PickStaysInField(found, lengths, distance, size, at, m);
    WithinOneField(found, lengths, distance, at, f, starts, m);
  }

  /** The index of a start in the operand's packed positions. */
  ghost function PositionOf(found: seq<Hits>, i: nat, f: Field, s: nat): (k: nat)
    requires AllPackable(found) && i < |found| && StartsIn(found[i], f, s)
    ensures s < COLUMN && k < |Positions(found)[i]| && Positions(found)[i][k] == Pack(f, s)
  {
    PositionsHold(found, i, f, s);
    var k :| 0 <= k < |Positions(found)[i]| && Positions(found)[i][k] == Pack(f, s);
    k
  }

  lemma PickStarts(found: seq<Hits>, f: Field, starts: seq<nat>) returns (at: seq<nat>)
    requires AllPackable(found) && |starts| == |found|
    requires forall j :: 0 <= j < |starts| ==> StartsIn(found[j], f, starts[j])
    ensures PicksIn(found, at, f, starts)
  {
    at := seq(|found|, j requires 0 <= j < |found| => PositionOf(found, j, f, starts[j]));
  }

  lemma NearIsMatched(found: seq<Hits>, lengths: seq<nat>, distance: nat, f: Field, starts: seq<nat>) returns (at: seq<nat>)
    requires AllPackable(found) && |found| == |lengths| > 0
    requires GroupOf(found, lengths, distance).Valid()
    requires NearInField(found, lengths, distance, f, starts)
    ensures PicksIn(found, at, f, starts)
    ensures GroupOf(found, lengths, distance).Matches(at)
  {
    at := PickStarts(found, f, starts);
    var m: nat :| m < |starts| && CloseTo(starts, lengths, distance, starts[m]);
    WithinOneField(found, lengths, distance, at, f, starts, m);
    assert GroupOf(found, lengths, distance).Start(at, m) == Positions(found)[m][at[m]];
  }

  lemma KeptIsPart(found: seq<Hits>, lengths: seq<nat>, distance: nat, size: nat, i: nat, f: Field, s: nat, k: nat)
    requires AllPackable(found) && |found| == |lengths| > 0 && i < |found|
    requires FitsIn(found, lengths, size) && size + distance < COLUMN
    requires GroupOf(found, lengths, distance).Valid() && GroupOf(found, lengths, distance).InMatch(i, k)
    requires s < COLUMN && k < |Positions(found)[i]| && Positions(found)[i][k] == Pack(f, s)
    ensures PartOfNear(found, lengths, distance, i, f, s)
  {
    var at: seq<nat> :| GroupOf(found, lengths, distance).Matches(at) && at[i] == k;
    var f', starts := MatchStaysInField(found, lengths, distance, size, at);
    PackIsInjective();
    assert f' == f && starts[i] == s;
  }

  /** When no field's end reaches the next field, the starts kept are exactly those of the relation. */
  lemma TrimIsExact(found: seq<Hits>, lengths: seq<nat>, distance: nat, size: nat)
    requires AllPackable(found) && |found| == |lengths| > 0
    requires FitsIn(found, lengths, size) && size + distance < COLUMN
    ensures TrimsExactly(found, lengths, distance)
  {
    forall i: nat, f: Field, s: nat, e: nat | i < |found|
      ensures HasRange(Trimmed(found, lengths, distance)[i], f, s, e) <==>
              e == s + lengths[i] && PartOfNear(found, lengths, distance, i, f, s)
    {
      TrimmedHasRange(found, lengths, distance, i, f, s, e);
      var g := GroupOf(found, lengths, distance);
      if HasRange(Trimmed(found, lengths, distance)[i], f, s, e) {
        var k :| 0 <= k < |Positions(found)[i]| && Positions(found)[i][k] == Pack(f, s) && g.InMatch(i, k);
        KeptIsPart(found, lengths, distance, size, i, f, s, k);
      } else if PartOfNear(found, lengths, distance, i, f, s) {
        var starts :| NearInField(found, lengths, distance, f, starts) && starts[i] == s;
        var at := NearIsMatched(found, lengths, distance, f, starts);
        assert g.InMatch(i, at[i]);
      }
    }
  }

  /** Operand 0 at the start of the abstract, every other one at the very end of a full title. */
  ghost function AcrossFields(lengths: seq<nat>, size: nat): (found: seq<Hits>)
    requires forall j :: 0 <= j < |lengths| ==> 1 <= lengths[j] <= size
    ensures |found| == |lengths|
  {
    seq(|lengths|, j requires 0 <= j < |lengths| =>
      if j == 0 then map[Abstract := [(0, lengths[0])]] else map[Title := [(size - lengths[j], size)]])
  }

  function AcrossField(j: nat): Field {
    if j == 0 then Abstract else Title
  }

  lemma AcrossFieldsStarts(lengths: seq<nat>, size: nat, j: nat)
    requires forall h :: 0 <= h < |lengths| ==> 1 <= lengths[h] <= size
    requires size <= COLUMN && j < |lengths|
    ensures forall f: Field, s: nat :: StartsIn(AcrossFields(lengths, size)[j], f, s) <==>
              f == AcrossField(j) && s == if j == 0 then 0 else size - lengths[j]
  {
    var hits := AcrossFields(lengths, size)[j];
    assert forall r :: r in hits[AcrossField(j)] <==> r == hits[AcrossField(j)][0];
  }

  lemma AcrossFieldsFit(lengths: seq<nat>, size: nat)
    requires forall j :: 0 <= j < |lengths| ==> 1 <= lengths[j] <= size
    requires size <= COLUMN
    ensures AllPackable(AcrossFields(lengths, size)) && FitsIn(AcrossFields(lengths, size), lengths, size)
  {
    var found := AcrossFields(lengths, size);
    forall j: nat | j < |found|
      ensures Packable(found[j])
    {
      AcrossFieldsStarts(lengths, size, j);
      assert forall f: Field, r: (nat, nat) :: f in found[j] && r in found[j][f] ==> StartsIn(found[j], f, r.0);
    }
    forall j: nat, f: Field, s: nat | j < |found| && StartsIn(found[j], f, s)
      ensures s + lengths[j] <= size
    {
      AcrossFieldsStarts(lengths, size, j);
    }
  }

  lemma AcrossFieldsPick(lengths: seq<nat>, size: nat) returns (at: seq<nat>)
    requires size <= COLUMN && forall j :: 0 <= j < |lengths| ==> 1 <= lengths[j] <= size
    ensures AllPackable(AcrossFields(lengths, size)) && |at| == |lengths|
    ensures forall j :: 0 <= j < |at| ==> at[j] < |Positions(AcrossFields(lengths, size))[j]|
    ensures forall j :: 0 <= j < |at| ==>
              Positions(AcrossFields(lengths, size))[j][at[j]] == if j == 0 then COLUMN else size - lengths[j]
  {
    var found := AcrossFields(lengths, size);
    AcrossFieldsFit(lengths, size);
    forall j: nat | j < |found|
      ensures StartsIn(found[j], AcrossField(j), if j == 0 then 0 else size - lengths[j])
    {
      AcrossFieldsStarts(lengths, size, j);
    }
    at := seq(|found|, j requires 0 <= j < |found| =>
      PositionOf(found, j, AcrossField(j), if j == 0 then 0 else size - lengths[j]));
  }

  lemma AcrossFieldsMatches(lengths: seq<nat>, distance: nat, size: nat) returns (at: seq<nat>)
    requires |lengths| >= 2 && size <= COLUMN <= size + distance
    requires forall j :: 0 <= j < |lengths| ==> 1 <= lengths[j] <= size
    ensures AllPackable(AcrossFields(lengths, size))
    ensures GroupOf(AcrossFields(lengths, size), lengths, distance).Valid()
    ensures GroupOf(AcrossFields(lengths, size), lengths, distance).Matches(at)
    ensures Positions(AcrossFields(lengths, size))[0][at[0]] == Pack(Abstract, 0)
  {
    var found := AcrossFields(lengths, size);
    at := AcrossFieldsPick(lengths, size);
    GroupIsValid(found, lengths, distance);
    var g := GroupOf(found, lengths, distance);
    assert forall j :: 0 <= j < |at| ==> g.Start(at, j) == Positions(found)[j][at[j]];
    assert g.Within(at, g.Start(at, 0));
  }

  /** A group that reaches from one field into the next keeps occurrences that are near nothing. */
  lemma AcrossFieldsIsKept(lengths: seq<nat>, distance: nat, size: nat)
    requires |lengths| >= 2 && size <= COLUMN <= size + distance
    requires forall j :: 0 <= j < |lengths| ==> 1 <= lengths[j] <= size
    ensures AllPackable(AcrossFields(lengths, size)) && FitsIn(AcrossFields(lengths, size), lengths, size)
    ensures !TrimsExactly(AcrossFields(lengths, size), lengths, distance)
  {
    var found := AcrossFields(lengths, size);
    AcrossFieldsFit(lengths, size);
    AcrossFieldsStarts(lengths, size, 1);
    forall starts
      ensures !NearInField(found, lengths, distance, Abstract, starts)
    {
      assert |starts| == |found| ==> !StartsIn(found[1], Abstract, starts[1]);
    }
    var at := AcrossFieldsMatches(lengths, distance, size);
    assert GroupOf(found, lengths, distance).InMatch(0, at[0]);
    TrimmedHasRange(found, lengths, distance, 0, Abstract, 0, lengths[0]);
  }

  /** For operands that fit, trimming is the documented relation on every document of at most `size`
      tokens a field exactly when `size` and `distance` together stay below one packed column. */
  lemma FieldsStayApart(lengths: seq<nat>, distance: nat, size: nat)
    requires |lengths| >= 2 && size <= COLUMN
    requires forall j :: 0 <= j < |lengths| ==> 1 <= lengths[j] <= size
    ensures size + distance < COLUMN <==>
            forall found: seq<Hits> :: |found| == |lengths| && AllPackable(found) && FitsIn(found, lengths, size) ==>
              TrimsExactly(found, lengths, distance)
  {
    if size + distance < COLUMN {
      forall found: seq<Hits> | |found| == |lengths| && AllPackable(found) && FitsIn(found, lengths, size)
        ensures TrimsExactly(found, lengths, distance)
      {
        TrimIsExact(found, lengths, distance, size);
      }
    } else {
      AcrossFieldsIsKept(lengths, distance, size);
    }
  }

  predicate AnyHit(hits: seq<Hits>) {
    exists i :: 0 <= i < |hits| && hits[i] != map[]
  }

  lemma TrimmedIsEmpty(found: seq<Hits>, lengths: seq<nat>, distance: nat, size: nat)
    requires AllPackable(found) && |found| == |lengths| > 0
    requires FitsIn(found, lengths, size) && size + distance < COLUMN
    ensures AnyHit(Trimmed(found, lengths, distance)) <==>
            exists f, starts :: NearInField(found, lengths, distance, f, starts)
  {
    TrimIsExact(found, lengths, distance, size);
    var trimmed := Trimmed(found, lengths, distance);
    if i: nat :| i < |found| && trimmed[i] != map[] {
      KeptAreColumns(found, lengths, distance);
      var g := GroupOf(found, lengths, distance);
      UnpackedIsExact(KeptStarts(g, i, |g.positions[i]|), lengths[i]);
      var f: Field :| f in trimmed[i];
      var r: (nat, nat) := trimmed[i][f][0];
      assert HasRange(trimmed[i], f, r.0, r.1);
      assert PartOfNear(found, lengths, distance, i, f, r.0);
    }
    if f, starts :| NearInField(found, lengths, distance, f, starts) {
      assert PartOfNear(found, lengths, distance, 0, f, starts[0]);
      assert HasRange(trimmed[0], f, starts[0], starts[0] + lengths[0]);
    }
  }

  // ----- NEAR, with the operands that span no token dropped

  function Spanning(lengths: seq<nat>): (r: seq<nat>)
    ensures forall k :: 0 <= k < |r| ==> r[k] < |lengths| && lengths[r[k]] > 0
    ensures forall j, k :: 0 <= j < k < |r| ==> r[j] < r[k]
    ensures forall i :: 0 <= i < |lengths| && lengths[i] > 0 ==> i in r
  {
    if lengths == [] then []
    else
      var rest := Spanning(lengths[..|lengths| - 1]);
      if lengths[|lengths| - 1] > 0 then rest + [|lengths| - 1] else rest
  }

  function Select<T>(items: seq<T>, indices: seq<nat>): (r: seq<T>)
    requires forall k :: 0 <= k < |indices| ==> indices[k] < |items|
    ensures |r| == |indices| && forall k :: 0 <= k < |r| ==> r[k] == items[indices[k]]
  {
    seq(|indices|, k requires 0 <= k < |indices| => items[indices[k]])
  }

  /** `size` empty mappings, with `parts` put in at `indices`. */
  function Spread(size: nat, indices: seq<nat>, parts: seq<Hits>): (r: seq<Hits>)
    requires |indices| == |parts| && forall k :: 0 <= k < |indices| ==> indices[k] < size
    requires forall j, k :: 0 <= j < k < |indices| ==> indices[j] < indices[k]
    ensures |r| == size
    ensures forall k :: 0 <= k < |indices| ==> r[indices[k]] == parts[k]
    ensures forall i :: 0 <= i < size && i !in indices ==> r[i] == map[]
  {
    if indices == [] then seq(size, _ => map[])
    else
      var n := |indices| - 1;
      Spread(size, indices[..n], parts[..n])[indices[n] := parts[n]]
  }

  ghost function NearHitsOf(found: seq<Hits>, lengths: seq<nat>, distance: nat): (r: seq<Hits>)
    requires AllPackable(found) && |found| == |lengths|
    ensures |r| == |found|
  {
    var kept := Spanning(lengths);
    if kept == [] then Spread(|found|, [], [])
    else if |kept| == 1 then Spread(|found|, kept, Select(found, kept))
    else Spread(|found|, kept, Trimmed(Select(found, kept), Select(lengths, kept), distance))
  }

  lemma SpreadIsEmpty(size: nat, indices: seq<nat>, parts: seq<Hits>)
    requires |indices| == |parts| && forall k :: 0 <= k < |indices| ==> indices[k] < size
    requires forall j, k :: 0 <= j < k < |indices| ==> indices[j] < indices[k]
    ensures AnyHit(Spread(size, indices, parts)) <==> AnyHit(parts)
  {
    var r := Spread(size, indices, parts);
    if AnyHit(r) {
      var i :| 0 <= i < |r| && r[i] != map[];
      assert i in indices;
      var k :| 0 <= k < |indices| && indices[k] == i;
      assert r[indices[k]] == parts[k];
    }
    if AnyHit(parts) {
      var k :| 0 <= k < |parts| && parts[k] != map[];
      assert r[indices[k]] == parts[k];
    }
  }

  method SpreadOver(size: nat, indices: seq<nat>, parts: seq<Hits>) returns (r: seq<Hits>)
    requires |indices| == |parts| && forall k :: 0 <= k < |indices| ==> indices[k] < size
    requires forall j, k :: 0 <= j < k < |indices| ==> indices[j] < indices[k]
    ensures r == Spread(size, indices, parts)
  {
    r := seq(size, _ => map[]);
    for k := 0 to |indices|
      invariant r == Spread(size, indices[..k], parts[..k])
    {
      assert indices[..k + 1][..k] == indices[..k] && parts[..k + 1][..k] == parts[..k];
      r := r[indices[k] := parts[k]];
    }
    assert indices[..|indices|] == indices && parts[..|parts|] == parts;
  }

  method ComputeNearHits(found: seq<Hits>, lengths: seq<nat>, distance: nat) returns (r: seq<Hits>)
    requires AllPackable(found) && |found| == |lengths|
    ensures r == NearHitsOf(found, lengths, distance)
  {
    var kept := Spanning(lengths);
    if |kept| == 1 {
      r := SpreadOver(|found|, kept, Select(found, kept));
    } else if kept != [] {
      var trimmed := TrimNear(Select(found, kept), Select(lengths, kept), distance);
      r := SpreadOver(|found|, kept, trimmed);
    } else {
      r := SpreadOver(|found|, [], []);
    }
  }
}
