/** Scoring a matched document in memory: which leaf occurrences count (search/store_memory.py). */
module StoreMemory {
  import opened Query
  import opened NearHits
  import opened Evaluate

  /** Every word and phrase of the query, in the order the scorer asks for their occurrences. */
  function Leaves(node: Node): seq<Leaf>
    decreases node, 1
  {
    match node
    case Not(x) => Leaves(x)
    case And(operands) => LeavesAll(operands)
    case Or(operands) => LeavesAll(operands)
    case Near(_, _, _) => ScopedMembers(node)
    case Lone(leaf) => [leaf]
  }

  function LeavesAll(nodes: seq<Node>): seq<Leaf>
    decreases nodes, 0
  {
    if nodes == [] then [] else Leaves(nodes[0]) + LeavesAll(nodes[1..])
  }

  /** A document under the tokenizer that split it. */
  datatype Text = Text(document: Indexed, tokenize: Tokenizer) {

    ghost predicate Matches(node: Node) {
      Satisfies(node, document, tokenize)
    }

    ghost function Own(node: Node): (r: seq<Hits>)
      requires node.Lone? || node.Near?
      ensures |r| == |Leaves(node)|
    {
      if node.Lone? then [Occurrences(node.leaf, document, tokenize)] else NearOccurrencesOf(node, document, tokenize)
    }

    // ----- What should count: a leaf on a path of subtrees that all match, none of them negated

    ghost predicate Counts(node: Node, k: nat)
      decreases node, 1
    {
      && Matches(node)
      && match node
         case Not(_) => false
         case And(operands) => CountsAmong(operands, k)
         case Or(operands) => CountsAmong(operands, k)
         case _ => true
    }

    ghost predicate CountsAmong(nodes: seq<Node>, k: nat)
      decreases nodes, 0
    {
      if nodes == [] then false
      else if k < |Leaves(nodes[0])| then Counts(nodes[0], k)
      else CountsAmong(nodes[1..], k - |Leaves(nodes[0])|)
    }

    /** The occurrences of leaf `k` as the leaf, or the NEAR group it stands in, has them. */
    ghost function Raw(node: Node, k: nat): Hits
      requires k < |Leaves(node)|
      decreases node, 1
    {
      match node
      case Not(x) => Raw(x, k)
      case And(operands) => RawAmong(operands, k)
      case Or(operands) => RawAmong(operands, k)
      case _ => Own(node)[k]
    }

    ghost function RawAmong(nodes: seq<Node>, k: nat): Hits
      requires k < |LeavesAll(nodes)|
      decreases nodes, 0
    {
      if k < |Leaves(nodes[0])| then Raw(nodes[0], k) else RawAmong(nodes[1..], k - |Leaves(nodes[0])|)
    }

    ghost predicate IsCounted(node: Node, hits: seq<Hits>) {
      |hits| == |Leaves(node)|
      && forall k :: 0 <= k < |hits| ==> hits[k] == if Counts(node, k) then Raw(node, k) else map[]
    }

    ghost predicate IsCountedAmong(nodes: seq<Node>, hits: seq<Hits>) {
      |hits| == |LeavesAll(nodes)|
      && forall k :: 0 <= k < |hits| ==> hits[k] == if CountsAmong(nodes, k) then RawAmong(nodes, k) else map[]
    }

    lemma {:induction false} CountedJoins(nodes: seq<Node>, first: seq<Hits>, rest: seq<Hits>)
      requires nodes != [] && IsCounted(nodes[0], first) && IsCountedAmong(nodes[1..], rest)
      ensures IsCountedAmong(nodes, first + rest)
    {
    }
  }

  /** `items` still to come, one at a time. */
  class Iterator<T> {
    const items: seq<T>
    var index: nat

    constructor (all: seq<T>)
      ensures items == all && index == 0
    {
      items, index := all, 0;
    }

    method Next() returns (item: T)
      requires index < |items|
      modifies this
      ensures item == items[old(index)] && index == old(index) + 1
    {
      item := items[index];
      index := index + 1;
    }
  }

  /** From these indices on, the items are the occurrences and lengths of `leaves`. */
  ghost predicate FeedsAt(found: Iterator<Hits>, lengths: Iterator<nat>, f: nat, l: nat, leaves: seq<Leaf>, text: Text) {
    && f + |leaves| <= |found.items| && l + |leaves| <= |lengths.items|
    && (forall k :: 0 <= k < |leaves| ==> found.items[f + k] == Occurrences(leaves[k], text.document, text.tokenize))
    && (forall k :: 0 <= k < |leaves| ==> lengths.items[l + k] == |LeafWords(text.tokenize, leaves[k])|)
  }

  ghost predicate Feeds(found: Iterator<Hits>, lengths: Iterator<nat>, leaves: seq<Leaf>, text: Text)
    reads found, lengths
  {
    FeedsAt(found, lengths, found.index, lengths.index, leaves, text)
  }

  lemma FeedsSplit(found: Iterator<Hits>, lengths: Iterator<nat>, a: seq<Leaf>, b: seq<Leaf>, text: Text)
    requires Feeds(found, lengths, a + b, text)
    ensures Feeds(found, lengths, a, text)
    ensures FeedsAt(found, lengths, found.index + |a|, lengths.index + |a|, b, text)
  {
    assert forall k :: 0 <= k < |a| ==> (a + b)[k] == a[k];
    forall k | 0 <= k < |b|
      ensures found.items[found.index + |a| + k] == Occurrences(b[k], text.document, text.tokenize)
      ensures lengths.items[lengths.index + |a| + k] == |LeafWords(text.tokenize, b[k])|
    {
      assert (a + b)[|a| + k] == b[k];
    }
  }

  datatype Part = Part(matched: bool, hits: seq<Hits>)

  ghost predicate ArePartsOf(operands: seq<Node>, parts: seq<Part>, text: Text) {
    |parts| == |operands|
    && forall j :: 0 <= j < |parts| ==> parts[j].matched == text.Matches(operands[j])
                                        && text.IsCounted(operands[j], parts[j].hits)
  }

  /** The hits of every part one after another, those of a part that fails, or of all, emptied. */
  function Flat(parts: seq<Part>, matched: bool): seq<Hits> {
    if parts == [] then []
    else (if matched && parts[0].matched then parts[0].hits else seq(|parts[0].hits|, _ => map[])) + Flat(parts[1..], matched)
  }

  lemma {:induction false} FlatIsCounted(operands: seq<Node>, parts: seq<Part>, text: Text)
    requires ArePartsOf(operands, parts, text)
    ensures text.IsCountedAmong(operands, Flat(parts, true))
    ensures |Flat(parts, false)| == |LeavesAll(operands)| && forall h :: h in Flat(parts, false) ==> h == map[]
  {
    if operands != [] {
      FlatIsCounted(operands[1..], parts[1..], text);
      var first := parts[0];
      assert first.hits == if first.matched then first.hits else seq(|first.hits|, _ => map[]);
      text.CountedJoins(operands, first.hits, Flat(parts[1..], true));
    }
  }

  lemma GroupMatches(operands: seq<Node>, text: Text)
    ensures text.Matches(And(operands)) <==>
            operands == [] || (text.Matches(operands[0]) && text.Matches(And(operands[1..])))
    ensures text.Matches(Or(operands)) <==>
            operands != [] && (text.Matches(operands[0]) || text.Matches(Or(operands[1..])))
  {
    var leaf := (n: Node) => LeafHolds(n, text.document, text.tokenize);
    assert Holds(And(operands), leaf) == HoldsAll(operands, leaf);
    assert Holds(Or(operands), leaf) == HoldsAny(operands, leaf);
    if operands != [] {
      assert Holds(And(operands[1..]), leaf) == HoldsAll(operands[1..], leaf);
      assert Holds(Or(operands[1..]), leaf) == HoldsAny(operands[1..], leaf);
    }
  }

  lemma {:induction false} AllMatched(operands: seq<Node>, parts: seq<Part>, text: Text)
    requires ArePartsOf(operands, parts, text)
    ensures (forall j :: 0 <= j < |parts| ==> parts[j].matched) <==> text.Matches(And(operands))
    ensures (exists j :: 0 <= j < |parts| && parts[j].matched) <==> text.Matches(Or(operands))
  {
    GroupMatches(operands, text);
    if operands != [] {
      AllMatched(operands[1..], parts[1..], text);
      assert parts == [parts[0]] + parts[1..];
    }
  }

  method Take<T>(from: Iterator<T>, count: nat) returns (r: seq<T>)
    requires from.index + count <= |from.items|
    modifies from
    ensures r == from.items[old(from.index)..old(from.index) + count]
    ensures from.index == old(from.index) + count
  {
    r := [];
    for k := 0 to count
      invariant from.index == old(from.index) + k
      invariant r == from.items[old(from.index)..from.index]
    {
      var item := from.Next();
      r := r + [item];
    }
  }

  /** Whether the query matches, and the occurrences of each of its leaves that count towards the score. */
  method CountedHits(node: Node, found: Iterator<Hits>, lengths: Iterator<nat>, ghost text: Text)
    returns (matched: bool, hits: seq<Hits>)
    requires Feeds(found, lengths, Leaves(node), text)
    modifies found, lengths
    ensures found.index == old(found.index) + |Leaves(node)|
    ensures lengths.index == old(lengths.index) + |Leaves(node)|
    ensures matched == text.Matches(node)
    ensures text.IsCounted(node, hits)
    decreases node, 1
  {
    match node
    case Lone(_) => matched, hits := CountedLone(node, found, lengths, text);
    case Near(_, _, _) => matched, hits := CountedNear(node, found, lengths, text);
    case Not(x) =>
      var inner, innerHits := CountedHits(x, found, lengths, text);
      return !inner, seq(|innerHits|, _ => map[]);
    case And(operands) => matched, hits := CountedGroup(node, found, lengths, text);
    case Or(operands) => matched, hits := CountedGroup(node, found, lengths, text);
  }

  method CountedLone(node: Node, found: Iterator<Hits>, lengths: Iterator<nat>, ghost text: Text)
    returns (matched: bool, hits: seq<Hits>)
    requires node.Lone? && Feeds(found, lengths, [node.leaf], text)
    modifies found, lengths
    ensures found.index == old(found.index) + 1 && lengths.index == old(lengths.index) + 1
    ensures matched == text.Matches(node) && text.IsCounted(node, hits)
  {
    assert found.items[found.index + 0] == Occurrences([node.leaf][0], text.document, text.tokenize);
    LoneHolds(node.leaf, text.document, text.tokenize);
    assert text.Matches(node) == LeafHolds(node, text.document, text.tokenize);
    var one := found.Next();
    var _ := lengths.Next();
    assert text.Own(node) == [one];
    return one != map[], [one];
  }

  method CountedNear(node: Node, found: Iterator<Hits>, lengths: Iterator<nat>, ghost text: Text)
    returns (matched: bool, hits: seq<Hits>)
    requires node.Near? && Feeds(found, lengths, ScopedMembers(node), text)
    modifies found, lengths
    ensures found.index == old(found.index) + |node.members| && lengths.index == old(lengths.index) + |node.members|
    ensures matched == text.Matches(node) && text.IsCounted(node, hits)
  {
    ghost var leaves := ScopedMembers(node);
    var there := Take(found, |node.members|);
    var spans := Take(lengths, |node.members|);
    assert there == Found(leaves, text.document, text.tokenize);
    assert spans == Lengths(leaves, text.tokenize);
    hits := ComputeNearHits(there, spans, node.distance);
    assert text.Matches(node) == LeafHolds(node, text.document, text.tokenize);
    return AnyHit(hits), hits;
  }

  method CountedGroup(node: Node, found: Iterator<Hits>, lengths: Iterator<nat>, ghost text: Text)
    returns (matched: bool, hits: seq<Hits>)
    requires (node.And? || node.Or?) && Feeds(found, lengths, Leaves(node), text)
    modifies found, lengths
    ensures found.index == old(found.index) + |Leaves(node)|
    ensures lengths.index == old(lengths.index) + |Leaves(node)|
    ensures matched == text.Matches(node)
    ensures text.IsCounted(node, hits)
    decreases node, 0
  {
    var parts := CountedParts(node.operands, found, lengths, text);
    AllMatched(node.operands, parts, text);
    FlatIsCounted(node.operands, parts, text);
    if node.And? {
      matched := forall j :: 0 <= j < |parts| ==> parts[j].matched;
      hits := Flat(parts, matched);
    } else {
      matched := exists j :: 0 <= j < |parts| && parts[j].matched;
      hits := Flat(parts, true);
    }
    forall k | 0 <= k < |hits|
      ensures hits[k] == if text.Counts(node, k) then text.Raw(node, k) else map[]
    {
      assert !matched && node.And? ==> hits[k] in Flat(parts, false);
      CountsNeedsMatch(node.operands, k, text);
    }
  }

  lemma {:induction false} CountsNeedsMatch(operands: seq<Node>, k: nat, text: Text)
    ensures text.CountsAmong(operands, k) ==> text.Matches(Or(operands))
  {
    GroupMatches(operands, text);
    if operands != [] {
      assert text.Counts(operands[0], k) ==> text.Matches(operands[0]);
      if k >= |Leaves(operands[0])| {
        CountsNeedsMatch(operands[1..], k - |Leaves(operands[0])|, text);
      }
    }
  }

  lemma {:induction false} LeavesGoOn(operands: seq<Node>, i: nat, next: nat)
    requires next == i + 1 <= |operands|
    ensures LeavesAll(operands[i..]) == Leaves(operands[i]) + LeavesAll(operands[next..])
  {
    assert operands[i..][1..] == operands[next..];
  }

  /** An iterator that began at `start` and stands at `index` has passed the leaves of the first `i` operands. */
  ghost predicate StandsAt(operands: seq<Node>, i: nat, start: nat, index: nat)
    requires i <= |operands|
  {
    index + |LeavesAll(operands[i..])| == start + |LeavesAll(operands)|
  }

  lemma {:induction false} StandsFurther(operands: seq<Node>, i: nat, next: nat, own: seq<Leaf>, start: nat, index: nat, after: nat)
    requires next == i + 1 <= |operands| && StandsAt(operands, i, start, index)
    requires own == Leaves(operands[i]) && after == index + |own|
    ensures StandsAt(operands, next, start, after)
  {
    LeavesGoOn(operands, i, next);
  }

  lemma PartsGoOn(operands: seq<Node>, i: nat, next: nat, parts: seq<Part>, part: Part, text: Text)
    requires next == i + 1 <= |operands| && ArePartsOf(operands[..i], parts, text)
    requires part.matched == text.Matches(operands[i]) && text.IsCounted(operands[i], part.hits)
    ensures ArePartsOf(operands[..next], parts + [part], text)
  {
  }

  method CountedParts(operands: seq<Node>, found: Iterator<Hits>, lengths: Iterator<nat>, ghost text: Text)
    returns (parts: seq<Part>)
    requires Feeds(found, lengths, LeavesAll(operands), text)
    modifies found, lengths
    ensures found.index == old(found.index) + |LeavesAll(operands)|
    ensures lengths.index == old(lengths.index) + |LeavesAll(operands)|
    ensures ArePartsOf(operands, parts, text)
    decreases operands, 0
  {
    parts := [];
    for i := 0 to |operands|
      invariant Feeds(found, lengths, LeavesAll(operands[i..]), text)
      invariant StandsAt(operands, i, old(found.index), found.index) && StandsAt(operands, i, old(lengths.index), lengths.index)
      invariant ArePartsOf(operands[..i], parts, text)
    {
      ghost var next := i + 1;
      ghost var (own, rest) := (Leaves(operands[i]), LeavesAll(operands[next..]));
      LeavesGoOn(operands, i, next);
      FeedsSplit(found, lengths, own, rest, text);
      ghost var (f, l) := (found.index, lengths.index);
      var partMatched, partHits := CountedHits(operands[i], found, lengths, text);
      assert FeedsAt(found, lengths, found.index, lengths.index, rest, text);
      StandsFurther(operands, i, next, own, old(found.index), f, found.index);
      StandsFurther(operands, i, next, own, old(lengths.index), l, lengths.index);
      PartsGoOn(operands, i, next, parts, Part(partMatched, partHits), text);
      parts := parts + [Part(partMatched, partHits)];
    }
    assert operands[..|operands|] == operands;
  }
}
