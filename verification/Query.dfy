/** The Boolean query tree and its canonical form (search/query.py). */
module Query {

  datatype Option<T> = None | Some(value: T)

  datatype Field = Title | Abstract | Body

  /** A word, or words that must appear adjacent. No fields means every field. */
  datatype Leaf =
    | Term(text: string, fields: seq<Field>, isPrefix: bool)
    | Phrase(words: seq<string>, fields: seq<Field>)

  datatype Node =
    | Lone(leaf: Leaf)
    | Near(members: seq<Leaf>, distance: nat, scope: seq<Field>)
    | And(operands: seq<Node>)
    | Or(operands: seq<Node>)
    | Not(operand: Node)

  datatype Kind = AndKind | OrKind

  predicate Is(kind: Kind, node: Node) {
    match kind
    case AndKind => node.And?
    case OrKind => node.Or?
  }

  function Make(kind: Kind, operands: seq<Node>): Node {
    match kind
    case AndKind => And(operands)
    case OrKind => Or(operands)
  }

  predicate Distinct(fields: seq<Field>) {
    forall i, j :: 0 <= i < j < |fields| ==> fields[i] != fields[j]
  }

  predicate LeafBuilds(leaf: Leaf) {
    && Distinct(leaf.fields)
    && match leaf
       case Term(text, _, _) => text != ""
       case Phrase(words, _) => words != [] && "" !in words
  }

  /** The trees the constructors accept; any other raises ValueError. */
  predicate Builds(node: Node) {
    match node
    case Lone(leaf) => LeafBuilds(leaf)
    case Near(members, _, scope) =>
      |members| >= 2 && Distinct(scope) && forall m :: m in members ==> LeafBuilds(m) && m.fields == []
    case And(operands) => operands != [] && forall x :: x in operands ==> Builds(x)
    case Or(operands) => operands != [] && forall x :: x in operands ==> Builds(x)
    case Not(x) => Builds(x)
  }

  // ----- Size, which bounds the recursion of normalization

  function Size(node: Node): nat
    decreases node, 1
  {
    match node
    case Lone(_) => 1
    case Near(_, _, _) => 1
    case And(operands) => 1 + SizeAll(operands)
    case Or(operands) => 1 + SizeAll(operands)
    case Not(x) => 1 + Size(x)
  }

  function SizeAll(nodes: seq<Node>): nat
    decreases nodes, 0
  {
    if nodes == [] then 0 else Size(nodes[0]) + SizeAll(nodes[1..])
  }

  lemma {:induction false} SizeAllJoins(a: seq<Node>, b: seq<Node>)
    ensures SizeAll(a + b) == SizeAll(a) + SizeAll(b)
  {
    if a == [] {
      assert a + b == b;
    } else {
      assert (a + b)[1..] == a[1..] + b;
      SizeAllJoins(a[1..], b);
    }
  }

  // ----- Normalization as a function

  function Negated(nodes: seq<Node>): (r: seq<Node>)
    ensures SizeAll(r) + |r| <= SizeAll(nodes)
  {
    if nodes == [] then []
    else if nodes[0].Not? then [nodes[0].operand] + Negated(nodes[1..])
    else Negated(nodes[1..])
  }

  function Plain(nodes: seq<Node>): (r: seq<Node>)
    ensures SizeAll(r) + SizeAll(Negated(nodes)) + |Negated(nodes)| == SizeAll(nodes)
    ensures |r| + |Negated(nodes)| == |nodes|
  {
    if nodes == [] then []
    else if nodes[0].Not? then Plain(nodes[1..])
    else [nodes[0]] + Plain(nodes[1..])
  }

  /** How many operands stand before the first Not. */
  function BeforeFirstNot(nodes: seq<Node>): (r: nat)
    requires Negated(nodes) != []
    ensures r <= |Plain(nodes)| && r < |nodes| && nodes[r].Not?
    ensures forall i :: 0 <= i < r ==> !nodes[i].Not?
  {
    if nodes[0].Not? then 0 else 1 + BeforeFirstNot(nodes[1..])
  }

  function Collapse(kind: Kind, nodes: seq<Node>): (r: Node)
    ensures Size(r) <= 1 + SizeAll(nodes)
  {
    if |nodes| == 1 then nodes[0] else Make(kind, nodes)
  }

  function Normal(node: Node): (r: Node)
    ensures Size(r) <= Size(node)
    decreases Size(node), 2
  {
    match node
    case Not(x) =>
      var inner := Normal(x);
      if inner.Not? then inner.operand else Not(inner)
    case Or(operands) => Collapse(OrKind, Flat(OrKind, operands))
    case And(operands) => Collapse(AndKind, Merged(Flat(AndKind, operands)))
    case _ => node
  }

  function Parts(kind: Kind, node: Node): (r: seq<Node>)
    ensures SizeAll(r) <= Size(node)
  {
    if Is(kind, node) then node.operands else [node]
  }

  function Flat(kind: Kind, nodes: seq<Node>): (r: seq<Node>)
    ensures SizeAll(r) <= SizeAll(nodes)
    decreases SizeAll(nodes), 3, |nodes|
  {
    if nodes == [] then []
    else
      var first := Parts(kind, Normal(nodes[0]));
      var rest := Flat(kind, nodes[1..]);
      SizeAllJoins(first, rest);
      first + rest
  }

  function Merged(nodes: seq<Node>): (r: seq<Node>)
    ensures SizeAll(r) <= SizeAll(nodes)
    decreases SizeAll(nodes), 4
  {
    var negated := Negated(nodes);
    if |negated| < 2 then nodes
    else Inserted(Plain(nodes), BeforeFirstNot(nodes), Not(Collapse(OrKind, Flat(OrKind, negated))))
  }

  function Inserted(nodes: seq<Node>, at: nat, node: Node): (r: seq<Node>)
    requires at <= |nodes|
    ensures SizeAll(r) == SizeAll(nodes) + Size(node)
  {
    SizeAllJoins(nodes[..at], [node]);
    SizeAllJoins(nodes[..at] + [node], nodes[at..]);
    SizeAllJoins(nodes[..at], nodes[at..]);
    assert nodes[..at] + nodes[at..] == nodes;
    nodes[..at] + [node] + nodes[at..]
  }

  lemma InsertedSplits(nodes: seq<Node>, at: nat, node: Node)
    requires at <= |nodes|
    ensures Inserted(nodes, at, node) == nodes[..at] + ([node] + nodes[at..])
    ensures nodes == nodes[..at] + nodes[at..]
  {
  }

  // ----- The normal form

  /** What `normalize` promises of its result: nothing nests that could flatten,
      no Not of a Not, groups of at least two, and at most one Not per And. */
  ghost predicate InNormalForm(node: Node)
    decreases node, 1
  {
    match node
    case Not(x) => InNormalForm(x) && !x.Not?
    case And(operands) => AreParts(AndKind, operands) && |operands| >= 2 && |Negated(operands)| <= 1
    case Or(operands) => AreParts(OrKind, operands) && |operands| >= 2
    case _ => true
  }

  ghost predicate AreParts(kind: Kind, nodes: seq<Node>)
    decreases nodes, 0
  {
    forall x :: x in nodes ==> InNormalForm(x) && !Is(kind, x)
  }

  lemma {:induction false} NormalIsNormalForm(node: Node)
    requires Builds(node)
    ensures InNormalForm(Normal(node))
    decreases Size(node), 2
  {
    match node
    case Not(x) => NormalIsNormalForm(x);
    case Or(operands) =>
      FlatIsParts(OrKind, operands);
    case And(operands) =>
      FlatIsParts(AndKind, operands);
      MergedIsParts(Flat(AndKind, operands));
    case _ =>
  }

  lemma {:induction false} FlatIsParts(kind: Kind, nodes: seq<Node>)
    requires forall x :: x in nodes ==> Builds(x)
    ensures AreParts(kind, Flat(kind, nodes))
    ensures |nodes| <= |Flat(kind, nodes)|
    decreases SizeAll(nodes), 3, |nodes|
  {
    if nodes != [] {
      NormalIsNormalForm(nodes[0]);
      FlatIsParts(kind, nodes[1..]);
    }
  }

  /** A tree in normal form is left unchanged. */
  lemma {:induction false} NormalFormIsFixed(node: Node)
    requires InNormalForm(node)
    ensures Normal(node) == node
    decreases node, 1
  {
    match node
    case Not(x) => NormalFormIsFixed(x);
    case And(operands) => PartsAreFixed(AndKind, operands);
    case Or(operands) => PartsAreFixed(OrKind, operands);
    case _ =>
  }

  lemma {:induction false} PartsAreFixed(kind: Kind, nodes: seq<Node>)
    requires AreParts(kind, nodes)
    ensures Flat(kind, nodes) == nodes
    decreases nodes, 0
  {
    if nodes != [] {
      NormalFormIsFixed(nodes[0]);
      PartsAreFixed(kind, nodes[1..]);
    }
  }

  /** Flattening operands that are already normal only opens the groups among them. */
  lemma {:induction false} NormalOperandsFlatten(kind: Kind, nodes: seq<Node>)
    requires forall x :: x in nodes ==> InNormalForm(x)
    ensures AreParts(kind, Flat(kind, nodes)) && |nodes| <= |Flat(kind, nodes)|
  {
    if nodes != [] {
      NormalFormIsFixed(nodes[0]);
      NormalOperandsFlatten(kind, nodes[1..]);
      assert AreParts(kind, Parts(kind, nodes[0]));
    }
  }

  lemma {:induction false} SplitByNot(nodes: seq<Node>)
    ensures forall x :: x in Negated(nodes) ==> Not(x) in nodes
    ensures forall x :: x in Plain(nodes) <==> x in nodes && !x.Not?
  {
    if nodes != [] {
      SplitByNot(nodes[1..]);
    }
  }

  lemma {:induction false} NegatedJoins(a: seq<Node>, b: seq<Node>)
    ensures Negated(a + b) == Negated(a) + Negated(b)
  {
    if a == [] {
      assert a + b == b;
    } else {
      assert (a + b)[1..] == a[1..] + b && (a + b)[0] == a[0];
      NegatedJoins(a[1..], b);
      assert Negated(a) == (if a[0].Not? then [a[0].operand] else []) + Negated(a[1..]);
    }
  }

  lemma {:induction false} NoNots(nodes: seq<Node>)
    requires forall x :: x in nodes ==> !x.Not?
    ensures Negated(nodes) == [] && Plain(nodes) == nodes
  {
    if nodes != [] {
      NoNots(nodes[1..]);
    }
  }

  lemma MergedIsParts(nodes: seq<Node>)
    requires AreParts(AndKind, nodes) && nodes != []
    ensures AreParts(AndKind, Merged(nodes)) && Merged(nodes) != [] && |Negated(Merged(nodes))| <= 1
  {
    var negated := Negated(nodes);
    if |negated| >= 2 {
      SplitByNot(nodes);
      assert forall x :: x in negated ==> InNormalForm(Not(x));
      NormalOperandsFlatten(OrKind, negated);
      var merged := Collapse(OrKind, Flat(OrKind, negated));
      assert InNormalForm(merged) && !merged.Not?;
      InsertedIsParts(Plain(nodes), BeforeFirstNot(nodes), Not(merged));
    }
  }

  lemma InsertedIsParts(plain: seq<Node>, at: nat, node: Node)
    requires at <= |plain| && AreParts(AndKind, plain) && (forall x :: x in plain ==> !x.Not?)
    requires node.Not? && InNormalForm(node)
    ensures AreParts(AndKind, Inserted(plain, at, node)) && |Negated(Inserted(plain, at, node))| == 1
  {
    NoNots(plain[..at]);
    NoNots(plain[at..]);
    NegatedJoins(plain[..at] + [node], plain[at..]);
    NegatedJoins(plain[..at], [node]);
  }

  // ----- The order of operands

  /** The operand is a Not, and none before it is. */
  ghost predicate IsFirstNot(nodes: seq<Node>, at: nat) {
    at < |nodes| && nodes[at].Not? && forall i :: 0 <= i < at ==> !nodes[i].Not?
  }

  lemma {:induction false} SplitAtFirstNot(nodes: seq<Node>, at: nat, behind: seq<Node>)
    requires IsFirstNot(nodes, at) && behind == nodes[at + 1..]
    ensures Negated(nodes) == [nodes[at].operand] + Negated(behind)
    ensures BeforeFirstNot(nodes) == at
  {
    if at > 0 {
      assert nodes[1..][at - 1 + 1..] == behind;
      SplitAtFirstNot(nodes[1..], at - 1, behind);
    }
  }

  lemma {:induction false} PlainAtFirstNot(nodes: seq<Node>, at: nat, before: seq<Node>, behind: seq<Node>)
    requires IsFirstNot(nodes, at) && before == nodes[..at] && behind == nodes[at + 1..]
    ensures Plain(nodes) == before + Plain(behind)
  {
    if at > 0 {
      var rest := nodes[1..];
      OneFurther(nodes, at, before, behind);
      PlainAtFirstNot(rest, at - 1, before[1..], behind);
      FrontGoesOn(before, Plain(behind));
    }
  }

  lemma OneFurther(nodes: seq<Node>, at: nat, before: seq<Node>, behind: seq<Node>)
    requires 0 < at < |nodes| && before == nodes[..at] && behind == nodes[at + 1..]
    ensures before[0] == nodes[0] && before[1..] == nodes[1..][..at - 1] && behind == nodes[1..][at - 1 + 1..]
  {
  }

  lemma FrontGoesOn(front: seq<Node>, tail: seq<Node>)
    requires front != []
    ensures [front[0]] + (front[1..] + tail) == front + tail
  {
  }

  /** Where there is another Not behind the first, one Not takes the place of the first, over the alternatives of them all in
      order; the others are dropped, and what is no Not stays in order. */
  lemma {:induction false} MergedStandsFirst(nodes: seq<Node>, at: nat, behind: seq<Node>)
    requires IsFirstNot(nodes, at) && behind == nodes[at + 1..] && Negated(behind) != []
    ensures Merged(nodes) == nodes[..at] + [Not(Normal(Or([nodes[at].operand] + Negated(behind))))] + Plain(behind)
  {
    SplitAtFirstNot(nodes, at, behind);
    PlainAtFirstNot(nodes, at, nodes[..at], behind);
    InsertedBetween(nodes[..at], Plain(behind), Not(Normal(Or(Negated(nodes)))));
  }

  lemma InsertedBetween(before: seq<Node>, behind: seq<Node>, node: Node)
    ensures Inserted(before + behind, |before|, node) == before + [node] + behind
  {
    assert (before + behind)[..|before|] == before && (before + behind)[|before|..] == behind;
  }

  lemma NormalIsIdempotent(node: Node)
    requires Builds(node)
    ensures Normal(Normal(node)) == Normal(node)
  {
    NormalIsNormalForm(node);
    NormalFormIsFixed(Normal(node));
  }

  // ----- Meaning

  /** Whether the query holds where `leaf` tells which words, phrases and NEAR groups do. */
  predicate Holds(node: Node, leaf: Node -> bool)
    decreases node, 1
  {
    match node
    case Not(x) => !Holds(x, leaf)
    case And(operands) => HoldsAll(operands, leaf)
    case Or(operands) => HoldsAny(operands, leaf)
    case _ => leaf(node)
  }

  predicate HoldsAll(nodes: seq<Node>, leaf: Node -> bool)
    decreases nodes, 0
  {
    nodes == [] || (Holds(nodes[0], leaf) && HoldsAll(nodes[1..], leaf))
  }

  predicate HoldsAny(nodes: seq<Node>, leaf: Node -> bool)
    decreases nodes, 0
  {
    nodes != [] && (Holds(nodes[0], leaf) || HoldsAny(nodes[1..], leaf))
  }

  predicate HoldsGroup(kind: Kind, nodes: seq<Node>, leaf: Node -> bool) {
    match kind
    case AndKind => HoldsAll(nodes, leaf)
    case OrKind => HoldsAny(nodes, leaf)
  }

  lemma {:induction false} GroupJoins(kind: Kind, a: seq<Node>, b: seq<Node>, leaf: Node -> bool)
    ensures kind == AndKind ==> HoldsAll(a + b, leaf) == (HoldsAll(a, leaf) && HoldsAll(b, leaf))
    ensures kind == OrKind ==> HoldsAny(a + b, leaf) == (HoldsAny(a, leaf) || HoldsAny(b, leaf))
  {
    if a == [] {
      assert a + b == b;
    } else {
      assert (a + b)[1..] == a[1..] + b;
      GroupJoins(kind, a[1..], b, leaf);
    }
  }

  /** The canonical form holds exactly where the tree does. */
  lemma {:induction false} NormalHolds(node: Node, leaf: Node -> bool)
    ensures Holds(Normal(node), leaf) == Holds(node, leaf)
    decreases Size(node), 2
  {
    match node
    case Not(x) => NormalHolds(x, leaf);
    case Or(operands) => FlatHolds(OrKind, operands, leaf);
    case And(operands) =>
      FlatHolds(AndKind, operands, leaf);
      MergedHolds(Flat(AndKind, operands), leaf);
    case _ =>
  }

  lemma {:induction false} FlatHolds(kind: Kind, nodes: seq<Node>, leaf: Node -> bool)
    ensures HoldsGroup(kind, Flat(kind, nodes), leaf) == HoldsGroup(kind, nodes, leaf)
    ensures Holds(Collapse(kind, Flat(kind, nodes)), leaf) == HoldsGroup(kind, nodes, leaf)
    decreases SizeAll(nodes), 3, |nodes|
  {
    if nodes != [] {
      NormalHolds(nodes[0], leaf);
      FlatHolds(kind, nodes[1..], leaf);
      GroupJoins(kind, Parts(kind, Normal(nodes[0])), Flat(kind, nodes[1..]), leaf);
    }
  }

  lemma {:induction false} MergedHolds(nodes: seq<Node>, leaf: Node -> bool)
    ensures HoldsAll(Merged(nodes), leaf) == HoldsAll(nodes, leaf)
    decreases SizeAll(nodes), 4
  {
    var negated := Negated(nodes);
    SplitHolds(nodes, leaf);
    if |negated| >= 2 {
      FlatHolds(OrKind, negated, leaf);
      InsertedHolds(Plain(nodes), BeforeFirstNot(nodes), Not(Collapse(OrKind, Flat(OrKind, negated))), leaf);
    }
  }

  lemma InsertedHolds(nodes: seq<Node>, at: nat, node: Node, leaf: Node -> bool)
    requires at <= |nodes|
    ensures HoldsAll(Inserted(nodes, at, node), leaf) == (HoldsAll(nodes, leaf) && Holds(node, leaf))
  {
    var left, right := nodes[..at], nodes[at..];
    InsertedSplits(nodes, at, node);
    GroupJoins(AndKind, left, [node] + right, leaf);
    GroupJoins(AndKind, left, right, leaf);
    assert ([node] + right)[1..] == right;
  }

  /** De Morgan's law over a list of operands. */
  lemma {:induction false} SplitHolds(nodes: seq<Node>, leaf: Node -> bool)
    ensures HoldsAll(nodes, leaf) == (HoldsAll(Plain(nodes), leaf) && !HoldsAny(Negated(nodes), leaf))
  {
    if nodes != [] {
      SplitHolds(nodes[1..], leaf);
    }
  }

  // ----- Without a Not, the leaves stay in order

  function LeafNodes(node: Node): seq<Node>
    decreases node, 1
  {
    match node
    case Not(x) => LeafNodes(x)
    case And(operands) => LeafNodesOf(operands)
    case Or(operands) => LeafNodesOf(operands)
    case _ => [node]
  }

  function LeafNodesOf(nodes: seq<Node>): seq<Node>
    decreases nodes, 0
  {
    if nodes == [] then [] else LeafNodes(nodes[0]) + LeafNodesOf(nodes[1..])
  }

  lemma {:induction false} LeafNodesJoin(a: seq<Node>, b: seq<Node>)
    ensures LeafNodesOf(a + b) == LeafNodesOf(a) + LeafNodesOf(b)
  {
    if a == [] {
      assert a + b == b;
    } else {
      LeafNodesJoin(a[1..], b);
      assert (a + b)[0] == a[0] && (a + b)[1..] == a[1..] + b;
      assert LeafNodes(a[0]) + (LeafNodesOf(a[1..]) + LeafNodesOf(b)) == LeafNodes(a[0]) + LeafNodesOf(a[1..]) + LeafNodesOf(b);
    }
  }

  /** Flattening the groups of a query without a Not leaves its words, phrases and NEAR groups in the order they are in. */
  lemma {:induction false} NotFreeKeepsOrder(node: Node, p: Node -> bool)
    requires Consists(node, false, p)
    ensures LeafNodes(Normal(node)) == LeafNodes(node)
    decreases Size(node), 2
  {
    NormalConsists(node, false, p);
    match node
    case Or(operands) =>
      FlatKeepsOrder(OrKind, operands, p);
      CollapseKeepsOrder(OrKind, Flat(OrKind, operands));
    case And(operands) =>
      FlatKeepsOrder(AndKind, operands, p);
      NoNots(Flat(AndKind, operands));
      CollapseKeepsOrder(AndKind, Flat(AndKind, operands));
    case _ =>
  }

  lemma {:induction false} CollapseKeepsOrder(kind: Kind, nodes: seq<Node>)
    ensures LeafNodes(Collapse(kind, nodes)) == LeafNodesOf(nodes)
  {
    if |nodes| == 1 {
      assert nodes[1..] == [];
    }
  }

  lemma {:induction false} PartsKeepOrder(kind: Kind, node: Node)
    ensures LeafNodesOf(Parts(kind, node)) == LeafNodes(node)
  {
    if !Is(kind, node) {
      assert [node][1..] == [];
    }
  }

  lemma {:induction false} FlatKeepsOrder(kind: Kind, nodes: seq<Node>, p: Node -> bool)
    requires forall x :: x in nodes ==> Consists(x, false, p)
    ensures LeafNodesOf(Flat(kind, nodes)) == LeafNodesOf(nodes) && forall x :: x in Flat(kind, nodes) ==> !x.Not?
    decreases SizeAll(nodes), 3, |nodes|
  {
    if nodes != [] {
      var first, rest := Parts(kind, Normal(nodes[0])), Flat(kind, nodes[1..]);
      NotFreeKeepsOrder(nodes[0], p);
      NormalConsists(nodes[0], false, p);
      FlatKeepsOrder(kind, nodes[1..], p);
      PartsKeepOrder(kind, Normal(nodes[0]));
      LeafNodesJoin(first, rest);
    }
  }

  // ----- No leaf is lost, repeated, or turned from wanted to unwanted

  /** Every leaf with its sign: false when an odd number of Nots stand over it. */
  function Signed(node: Node, sign: bool): multiset<(Node, bool)>
    decreases node, 1
  {
    match node
    case Not(x) => Signed(x, !sign)
    case And(operands) => SignedAll(operands, sign)
    case Or(operands) => SignedAll(operands, sign)
    case _ => multiset{(node, sign)}
  }

  function SignedAll(nodes: seq<Node>, sign: bool): multiset<(Node, bool)>
    decreases nodes, 0
  {
    if nodes == [] then multiset{} else Signed(nodes[0], sign) + SignedAll(nodes[1..], sign)
  }

  lemma {:induction false} SignedJoins(a: seq<Node>, b: seq<Node>, sign: bool)
    ensures SignedAll(a + b, sign) == SignedAll(a, sign) + SignedAll(b, sign)
  {
    if a == [] {
      assert a + b == b;
    } else {
      assert (a + b)[1..] == a[1..] + b;
      SignedJoins(a[1..], b, sign);
    }
  }

  lemma {:induction false} NormalKeepsLeaves(node: Node, sign: bool)
    ensures Signed(Normal(node), sign) == Signed(node, sign)
    decreases Size(node), 2
  {
    match node
    case Not(x) => NormalKeepsLeaves(x, !sign);
    case Or(operands) =>
      FlatKeepsLeaves(OrKind, operands, sign);
      CollapseKeepsLeaves(OrKind, Flat(OrKind, operands), sign);
    case And(operands) =>
      FlatKeepsLeaves(AndKind, operands, sign);
      MergedKeepsLeaves(Flat(AndKind, operands), sign);
      CollapseKeepsLeaves(AndKind, Merged(Flat(AndKind, operands)), sign);
    case _ =>
  }

  lemma CollapseKeepsLeaves(kind: Kind, nodes: seq<Node>, sign: bool)
    ensures Signed(Collapse(kind, nodes), sign) == SignedAll(nodes, sign)
  {
    if |nodes| == 1 {
      assert SignedAll(nodes[1..], sign) == multiset{};
    }
  }

  lemma PartsKeepLeaves(kind: Kind, node: Node, sign: bool)
    ensures SignedAll(Parts(kind, node), sign) == Signed(node, sign)
  {
    if !Is(kind, node) {
      assert SignedAll([node][1..], sign) == multiset{};
    }
  }

  lemma {:induction false} FlatKeepsLeaves(kind: Kind, nodes: seq<Node>, sign: bool)
    ensures SignedAll(Flat(kind, nodes), sign) == SignedAll(nodes, sign)
    decreases SizeAll(nodes), 3, |nodes|
  {
    if nodes != [] {
      var first, rest := Parts(kind, Normal(nodes[0])), Flat(kind, nodes[1..]);
      NormalKeepsLeaves(nodes[0], sign);
      FlatKeepsLeaves(kind, nodes[1..], sign);
      PartsKeepLeaves(kind, Normal(nodes[0]), sign);
      SignedJoins(first, rest, sign);
      assert Flat(kind, nodes) == first + rest;
    }
  }

  lemma {:induction false} MergedKeepsLeaves(nodes: seq<Node>, sign: bool)
    ensures SignedAll(Merged(nodes), sign) == SignedAll(nodes, sign)
    decreases SizeAll(nodes), 4
  {
    var negated := Negated(nodes);
    if |negated| >= 2 {
      var flat := Flat(OrKind, negated);
      var group := Collapse(OrKind, flat);
      FlatKeepsLeaves(OrKind, negated, !sign);
      CollapseKeepsLeaves(OrKind, flat, !sign);
      assert Signed(Not(group), sign) == SignedAll(negated, !sign);
      SplitKeepsLeaves(nodes, sign);
      InsertedKeepsLeaves(Plain(nodes), BeforeFirstNot(nodes), Not(group), sign);
      assert Merged(nodes) == Inserted(Plain(nodes), BeforeFirstNot(nodes), Not(group));
    }
  }

  lemma InsertedKeepsLeaves(nodes: seq<Node>, at: nat, node: Node, sign: bool)
    requires at <= |nodes|
    ensures SignedAll(Inserted(nodes, at, node), sign) == SignedAll(nodes, sign) + Signed(node, sign)
  {
    var left, right := nodes[..at], nodes[at..];
    InsertedSplits(nodes, at, node);
    SignedJoins(left, [node] + right, sign);
    SignedJoins(left, right, sign);
    assert ([node] + right)[1..] == right;
  }

  lemma {:induction false} SplitKeepsLeaves(nodes: seq<Node>, sign: bool)
    ensures SignedAll(nodes, sign) == SignedAll(Plain(nodes), sign) + SignedAll(Negated(nodes), !sign)
  {
    if nodes != [] {
      SplitKeepsLeaves(nodes[1..], sign);
    }
  }

  // ----- What a tree is made of stays so

  /** Groups are not empty, every leaf satisfies `p`, and there is no Not unless allowed. */
  ghost predicate Consists(node: Node, nots: bool, p: Node -> bool) {
    match node
    case Not(x) => nots && Consists(x, nots, p)
    case And(operands) => operands != [] && forall x :: x in operands ==> Consists(x, nots, p)
    case Or(operands) => operands != [] && forall x :: x in operands ==> Consists(x, nots, p)
    case _ => p(node)
  }

  ghost predicate ConsistAll(nodes: seq<Node>, nots: bool, p: Node -> bool) {
    nodes != [] && forall x :: x in nodes ==> Consists(x, nots, p)
  }

  lemma {:induction false} NormalConsists(node: Node, nots: bool, p: Node -> bool)
    requires Consists(node, nots, p)
    ensures Consists(Normal(node), nots, p)
    decreases Size(node), 2
  {
    match node
    case Not(x) => NormalConsists(x, nots, p);
    case Or(operands) => FlatConsists(OrKind, operands, nots, p);
    case And(operands) =>
      FlatConsists(AndKind, operands, nots, p);
      MergedConsists(Flat(AndKind, operands), nots, p);
    case _ =>
  }

  lemma {:induction false} FlatConsists(kind: Kind, nodes: seq<Node>, nots: bool, p: Node -> bool)
    requires ConsistAll(nodes, nots, p)
    ensures ConsistAll(Flat(kind, nodes), nots, p)
    decreases SizeAll(nodes), 3, |nodes|
  {
    NormalConsists(nodes[0], nots, p);
    if |nodes| > 1 {
      FlatConsists(kind, nodes[1..], nots, p);
    } else {
      assert Flat(kind, nodes[1..]) == [];
    }
  }

  lemma MergedConsists(nodes: seq<Node>, nots: bool, p: Node -> bool)
    requires ConsistAll(nodes, nots, p)
    ensures ConsistAll(Merged(nodes), nots, p)
    decreases SizeAll(nodes), 4
  {
    var negated := Negated(nodes);
    SplitByNot(nodes);
    if |negated| >= 2 {
      forall x | x in negated
        ensures nots && Consists(x, nots, p)
      {
        assert Consists(Not(x), nots, p);
      }
      assert nots && ConsistAll(negated, nots, p) by {
        assert negated[0] in negated;
      }
      var flat := Flat(OrKind, negated);
      FlatConsists(OrKind, negated, nots, p);
      CollapseConsists(OrKind, flat, nots, p);
      InsertedConsists(Plain(nodes), BeforeFirstNot(nodes), Not(Collapse(OrKind, flat)), nots, p);
    }
  }

  lemma CollapseConsists(kind: Kind, nodes: seq<Node>, nots: bool, p: Node -> bool)
    requires ConsistAll(nodes, nots, p)
    ensures Consists(Collapse(kind, nodes), nots, p)
  {
    assert nodes[0] in nodes;
  }

  lemma InsertedConsists(nodes: seq<Node>, at: nat, node: Node, nots: bool, p: Node -> bool)
    requires at <= |nodes| && Consists(node, nots, p) && forall x :: x in nodes ==> Consists(x, nots, p)
    ensures ConsistAll(Inserted(nodes, at, node), nots, p)
  {
    assert forall x :: x in nodes[..at] || x in nodes[at..] ==> x in nodes;
  }

  // ----- Normalization as the source runs it

  lemma {:induction false} SizeOfMember(nodes: seq<Node>, i: nat)
    requires i < |nodes|
    ensures Size(nodes[i]) <= SizeAll(nodes)
  {
    if i > 0 {
      SizeOfMember(nodes[1..], i - 1);
    }
  }

  lemma {:induction false} FlatJoins(kind: Kind, a: seq<Node>, b: seq<Node>)
    ensures Flat(kind, a + b) == Flat(kind, a) + Flat(kind, b)
  {
    if a == [] {
      assert a + b == b;
    } else {
      assert (a + b)[1..] == a[1..] + b;
      FlatJoins(kind, a[1..], b);
    }
  }

  lemma FlatGrows(kind: Kind, nodes: seq<Node>, i: nat)
    requires i < |nodes|
    ensures Flat(kind, nodes[..i + 1]) == Flat(kind, nodes[..i]) + Parts(kind, Normal(nodes[i]))
  {
    FlatJoins(kind, nodes[..i], [nodes[i]]);
    assert nodes[..i + 1] == nodes[..i] + [nodes[i]];
  }

  method Normalize(node: Node) returns (r: Node)
    ensures r == Normal(node)
    decreases Size(node), 2
  {
    match node
    case Not(x) =>
      var operand := Normalize(x);
      r := if operand.Not? then operand.operand else Not(operand);
    case Or(operands) =>
      var flat := Flatten(OrKind, operands);
      r := Collapse(OrKind, flat);
    case And(operands) =>
      var flat := Flatten(AndKind, operands);
      var merged := MergeNegations(flat);
      r := Collapse(AndKind, merged);
    case _ =>
      r := node;
  }

  method Flatten(kind: Kind, operands: seq<Node>) returns (flat: seq<Node>)
    ensures flat == Flat(kind, operands)
    decreases SizeAll(operands), 3
  {
    flat := [];
    for i := 0 to |operands|
      invariant flat == Flat(kind, operands[..i])
    {
      SizeOfMember(operands, i);
      var normalized := Normalize(operands[i]);
      FlatGrows(kind, operands, i);
      flat := flat + (if Is(kind, normalized) then normalized.operands else [normalized]);
    }
    assert operands[..|operands|] == operands;
  }

  method MergeNegations(operands: seq<Node>) returns (merged: seq<Node>)
    ensures merged == Merged(operands)
    decreases SizeAll(operands), 4
  {
    var negated := Negated(operands);
    if |negated| < 2 {
      return operands;
    }
    var firstNegation := BeforeFirstNot(operands);
    merged := Plain(operands);
    var flat := Flatten(OrKind, negated);
    merged := merged[..firstNegation] + [Not(Collapse(OrKind, flat))] + merged[firstNegation..];
  }
}
