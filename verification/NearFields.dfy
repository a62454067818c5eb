/** How large a field and a distance NEAR can take before it reaches into the next field (search/evaluate.py). */
module NearFields {
  import opened Query
  import opened NearWalk
  import opened NearHits
  import opened Evaluate

  /** `NEAR(x y, distance)` in any field. */
  function TwoWords(x: string, y: string, distance: nat): Node {
    Near([Term(x, [], false), Term(y, [], false)], distance, [])
  }

  /** A title full of one word, and the other word as the abstract. */
  function Across(a: string, b: string, size: nat): Document {
    Document(seq(size, _ => a), [b], [])
  }

  /** The query's terms are one token each. */
  ghost predicate AreWords(x: string, y: string, a: string, b: string, tokenize: Tokenizer) {
    x != "" && y != "" && tokenize(x) == [a] && tokenize(y) == [b]
  }

  lemma {:induction false} AllSpan(lengths: seq<nat>)
    requires forall i :: 0 <= i < |lengths| ==> lengths[i] > 0
    ensures |Spanning(lengths)| == |lengths| && forall k :: 0 <= k < |lengths| ==> Spanning(lengths)[k] == k
  {
    if lengths != [] {
      AllSpan(lengths[..|lengths| - 1]);
    }
  }

  /** Members that all have a token are all kept. */
  lemma AllAreKept(near: Node, tokenize: Tokenizer)
    requires near.Near? && near.scope == []
    requires forall i :: 0 <= i < |near.members| ==> LeafWords(tokenize, near.members[i]) != []
    ensures KeptMembers(near, tokenize) == near.members
  {
    AllSpan(Lengths(ScopedMembers(near), tokenize));
  }

  lemma TwoWordsSpan(x: string, y: string, a: string, b: string, tokenize: Tokenizer, leaves: seq<Leaf>)
    requires AreWords(x, y, a, b, tokenize) && leaves == [Term(x, [], false), Term(y, [], false)]
    ensures LeafWords(tokenize, leaves[0]) == [a] && LeafWords(tokenize, leaves[1]) == [b]
    ensures Lengths(leaves, tokenize) == [1, 1]
  {
    var lengths := Lengths(leaves, tokenize);
    assert |lengths| == 2 && lengths[0] == 1 && lengths[1] == 1;
  }

  lemma TwoWordsAreKept(x: string, y: string, a: string, b: string, distance: nat, tokenize: Tokenizer, near: Node)
    requires AreWords(x, y, a, b, tokenize) && near == TwoWords(x, y, distance)
    ensures KeptMembers(near, tokenize) == near.members && near.members == [Term(x, [], false), Term(y, [], false)]
    ensures LeafWords(tokenize, near.members[0]) == [a] && LeafWords(tokenize, near.members[1]) == [b]
    ensures Lengths(near.members, tokenize) == [1, 1]
  {
    TwoWordsSpan(x, y, a, b, tokenize, near.members);
    AllAreKept(near, tokenize);
  }

  /** No field has both words. */
  lemma NotBoth(a: string, b: string, size: nat, f: Field, s: nat, t: nat)
    requires a != b
    ensures !(OccursAt(Across(a, b, size).Tokens(f), [a], false, s) && OccursAt(Across(a, b, size).Tokens(f), [b], false, t))
  {
  }

  lemma NotNear(x: string, y: string, a: string, b: string, size: nat, distance: nat, tokenize: Tokenizer, near: Node,
                f: Field, starts: seq<nat>, m: nat)
    requires AreWords(x, y, a, b, tokenize) && a != b && near == TwoWords(x, y, distance)
    ensures !NearIn(near, Across(a, b, size).Tokens(f), tokenize, starts, m)
  {
    TwoWordsSpan(x, y, a, b, tokenize, near.members);
    if |starts| == 2 {
      NotBoth(a, b, size, f, starts[0], starts[1]);
    }
  }

  lemma NoFieldHasBoth(x: string, y: string, a: string, b: string, size: nat, distance: nat, tokenize: Tokenizer, near: Node)
    requires AreWords(x, y, a, b, tokenize) && a != b && near == TwoWords(x, y, distance)
    ensures !NearHolds(near, Across(a, b, size), tokenize)
  {
    forall f: Field, starts: seq<nat>, m: nat
      ensures !NearIn(near, Across(a, b, size).Tokens(f), tokenize, starts, m)
    {
      NotNear(x, y, a, b, size, distance, tokenize, near, f, starts, m);
    }
  }

  lemma AcrossMatches(g: Group, size: nat, i: nat, j: nat)
    requires g.Valid() && |g.positions| == 2 && g.lengths == [1, 1] && 0 < size <= COLUMN <= size + g.distance
    requires i < |g.positions[0]| && g.positions[0][i] == size - 1
    requires j < |g.positions[1]| && g.positions[1][j] == COLUMN
    ensures g.InMatch(1, j)
  {
    var at: seq<nat> := [i, j];
    assert g.IsPick(at) && g.Start(at, 0) == size - 1 && g.Start(at, 1) == COLUMN;
    assert g.Within(at, g.Start(at, 1));
    assert g.Matches(at) && at[1] == j;
  }

  lemma PositionAt(found: seq<Hits>, i: nat, f: Field, s: nat) returns (k: nat)
    requires AllPackable(found) && i < |found| && s < COLUMN && StartsIn(found[i], f, s)
    ensures k < |Positions(found)[i]| && Positions(found)[i][k] == Pack(f, s)
  {
    PositionsHold(found, i, f, s);
    k :| 0 <= k < |Positions(found)[i]| && Positions(found)[i][k] == Pack(f, s);
  }

  /** The last word of the title and the first of the abstract are packed no further apart than the distance. */
  lemma AcrossIsKept(found: seq<Hits>, lengths: seq<nat>, distance: nat, size: nat)
    requires AllPackable(found) && |found| == 2 && lengths == [1, 1] && 0 < size <= COLUMN <= size + distance
    requires StartsIn(found[0], Title, size - 1) && StartsIn(found[1], Abstract, 0)
    ensures AnyHit(Trimmed(found, lengths, distance))
  {
    GroupIsValid(found, lengths, distance);
    var g := GroupOf(found, lengths, distance);
    var i := PositionAt(found, 0, Title, size - 1);
    var j := PositionAt(found, 1, Abstract, 0);
    assert Pack(Title, size - 1) == size - 1 && Pack(Abstract, 0) == COLUMN;
    AcrossMatches(g, size, i, j);
    TrimmedHasRange(found, lengths, distance, 1, Abstract, 0, 1);
    assert HasRange(Trimmed(found, lengths, distance)[1], Abstract, 0, 1);
  }

  lemma AcrossFits(a: string, b: string, size: nat)
    requires 0 < size <= COLUMN
    ensures Across(a, b, size).Fits(size) && Across(a, b, size).Fits(COLUMN)
    ensures OccursAt(Across(a, b, size).Tokens(Title), [a], false, size - 1)
    ensures OccursAt(Across(a, b, size).Tokens(Abstract), [b], false, 0)
  {
  }

  lemma AcrossHolds(x: string, y: string, a: string, b: string, size: nat, distance: nat, tokenize: Tokenizer, near: Node,
                    document: Indexed)
    requires AreWords(x, y, a, b, tokenize) && 0 < size <= COLUMN <= size + distance
    requires near == TwoWords(x, y, distance) && document == Across(a, b, size)
    ensures LeafHolds(near, document, tokenize)
  {
    var found := Found(near.members, document, tokenize);
    AcrossFits(a, b, size);
    OccurrencesStart(near.members[0], document, tokenize, Title, size - 1);
    OccurrencesStart(near.members[1], document, tokenize, Abstract, 0);
    TwoWordsAreKept(x, y, a, b, distance, tokenize, near);
    AcrossIsKept(found, Lengths(near.members, tokenize), distance, size);
    KeptDecide(near, document, tokenize);
  }

  /** Whether the evaluator decides the query as documented, on every document whose fields hold at most `size` tokens. */
  ghost predicate DecidesAll(near: Node, size: nat, tokenize: Tokenizer)
    requires near.Near?
  {
    forall document: Indexed :: document.Fits(size) ==>
      (Satisfies(near, document, tokenize) <==> NearHolds(near, document, tokenize))
  }

  /** On a large field or with a large distance, two words of different fields are near each other. */
  lemma AcrossIsWrong(x: string, y: string, a: string, b: string, size: nat, distance: nat, tokenize: Tokenizer, near: Node)
    returns (document: Indexed)
    requires AreWords(x, y, a, b, tokenize) && a != b && size > 0 && size + distance >= COLUMN
    requires near == TwoWords(x, y, distance)
    ensures document.Fits(size) && Satisfies(near, document, tokenize) && !NearHolds(near, document, tokenize)
  {
    var full := if size <= COLUMN then size else COLUMN;
    AcrossFits(a, b, full);
    document := Across(a, b, full);
    AcrossHolds(x, y, a, b, full, distance, tokenize, near, document);
    NoFieldHasBoth(x, y, a, b, full, distance, tokenize, near);
  }

  /** Two different words near each other are decided as documented exactly while the longest field and the distance
      stay below 2^32 together. */
  lemma TwoWordsAreDecided(x: string, y: string, a: string, b: string, size: nat, distance: nat, tokenize: Tokenizer)
    requires AreWords(x, y, a, b, tokenize) && a != b && size > 0
    ensures DecidesAll(TwoWords(x, y, distance), size, tokenize) <==> size + distance < COLUMN
  {
    var near := TwoWords(x, y, distance);
    if size + distance < COLUMN {
      forall document: Indexed | document.Fits(size)
        ensures Satisfies(near, document, tokenize) <==> NearHolds(near, document, tokenize)
      {
        NearIsDecided(near, document, tokenize, size);
      }
    } else {
      var document := AcrossIsWrong(x, y, a, b, size, distance, tokenize, near);
    }
  }
}
