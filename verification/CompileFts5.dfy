/** Compiling a query to one FTS5 MATCH expression, or to a SQL filter over several (search/compile_fts5.py). */
module CompileFts5 {
  import opened Query
  import opened Evaluate

  // ----- FTS5's own expressions

  datatype FtsPhrase = FtsPhrase(text: string, isPrefix: bool)

  datatype FtsLeaf =
    | OnePhrase(columns: seq<Field>, phrase: FtsPhrase)
    | NearGroup(columns: seq<Field>, phrases: seq<FtsPhrase>, distance: nat)

  /** NOT is binary: it takes the right match set away from the left. */
  datatype Fts =
    | FLeaf(leaf: FtsLeaf)
    | FAnd(left: Fts, right: Fts)
    | FOr(left: Fts, right: Fts)
    | FNot(left: Fts, right: Fts)

  predicate Selects(t: Fts, leaf: FtsLeaf -> bool) {
    match t
    case FLeaf(l) => leaf(l)
    case FAnd(l, r) => Selects(l, leaf) && Selects(r, leaf)
    case FOr(l, r) => Selects(l, leaf) || Selects(r, leaf)
    case FNot(l, r) => Selects(l, leaf) && !Selects(r, leaf)
  }

  datatype Tok = Literal(leaf: FtsLeaf) | Open | Close | AndWord | OrWord | NotWord

  type Reading = Option<(Fts, seq<Tok>)>

  // FTS5's operators associate to the left; NOT binds tightest, then AND, then OR.

  function ReadOr(s: seq<Tok>): (r: Reading)
    ensures r.Some? ==> |r.value.1| < |s|
    decreases |s|, 6
  {
    match ReadAnd(s)
    case None => None
    case Some((t, rest)) => OrTail(t, rest)
  }

  function OrTail(t: Fts, s: seq<Tok>): (r: Reading)
    ensures r.Some? ==> |r.value.1| <= |s|
    decreases |s|, 5
  {
    if s == [] || s[0] != OrWord then Some((t, s))
    else
      match ReadAnd(s[1..])
      case None => None
      case Some((u, rest)) => OrTail(FOr(t, u), rest)
  }

  function ReadAnd(s: seq<Tok>): (r: Reading)
    ensures r.Some? ==> |r.value.1| < |s|
    decreases |s|, 4
  {
    match ReadNot(s)
    case None => None
    case Some((t, rest)) => AndTail(t, rest)
  }

  function AndTail(t: Fts, s: seq<Tok>): (r: Reading)
    ensures r.Some? ==> |r.value.1| <= |s|
    decreases |s|, 3
  {
    if s == [] || s[0] != AndWord then Some((t, s))
    else
      match ReadNot(s[1..])
      case None => None
      case Some((u, rest)) => AndTail(FAnd(t, u), rest)
  }

  function ReadNot(s: seq<Tok>): (r: Reading)
    ensures r.Some? ==> |r.value.1| < |s|
    decreases |s|, 2
  {
    match ReadPrimary(s)
    case None => None
    case Some((t, rest)) => NotTail(t, rest)
  }

  function NotTail(t: Fts, s: seq<Tok>): (r: Reading)
    ensures r.Some? ==> |r.value.1| <= |s|
    decreases |s|, 1
  {
    if s == [] || s[0] != NotWord then Some((t, s))
    else
      match ReadPrimary(s[1..])
      case None => None
      case Some((u, rest)) => NotTail(FNot(t, u), rest)
  }

  function ReadPrimary(s: seq<Tok>): (r: Reading)
    ensures r.Some? ==> |r.value.1| < |s|
    decreases |s|, 0
  {
    if s == [] then None
    else if s[0].Literal? then Some((FLeaf(s[0].leaf), s[1..]))
    else if s[0].Open? then
      match ReadOr(s[1..])
      case None => None
      case Some((t, rest)) => if rest != [] && rest[0] == Close then Some((t, rest[1..])) else None
    else None
  }

  // ----- The compiler

  function Sendable(text: string): string {
    seq(|text|, i requires 0 <= i < |text| => if text[i] == '\0' then ' ' else text[i])
  }

  function ToPhrase(leaf: Leaf): FtsPhrase {
    match leaf
    case Term(text, _, isPrefix) => FtsPhrase(Sendable(text), isPrefix)
    case Phrase(words, _) => FtsPhrase(Sendable(Joined(words)), false)
  }

  function ToLeaf(node: Node): FtsLeaf
    requires node.Lone? || node.Near?
  {
    match node
    case Lone(leaf) => OnePhrase(leaf.fields, ToPhrase(leaf))
    case Near(members, distance, scope) =>
      NearGroup(scope, seq(|members|, i requires 0 <= i < |members| => ToPhrase(members[i])), distance)
  }

  predicate Subtracts(node: Node) {
    node.And? && Negated(node.operands) != []
  }

  function Join(parts: seq<seq<Tok>>, word: Tok): seq<Tok> {
    if parts == [] then []
    else if |parts| == 1 then parts[0]
    else parts[0] + [word] + Join(parts[1..], word)
  }

  function Compile(node: Node): Option<seq<Tok>>
    decreases Size(node), 1
  {
    match node
    case Lone(_) => Some([Literal(ToLeaf(node))])
    case Near(_, _, _) => Some([Literal(ToLeaf(node))])
    case Or(operands) =>
      (match CompileEach(operands)
       case None => None
       case Some(alternatives) => Some([Open] + Join(alternatives, OrWord) + [Close]))
    case And(operands) =>
      (match (CompileEach(Plain(operands)), CompileEach(Negated(operands)))
       case (Some(kept), Some(removed)) =>
         var included := if |kept| == 1 then kept[0] else [Open] + Join(kept, AndWord) + [Close];
         Some(if removed != [] then included + [NotWord] + removed[0] else included)
       case _ => None)
    case Not(_) => None
  }

  function CompileEach(nodes: seq<Node>): (r: Option<seq<seq<Tok>>>)
    ensures r.Some? ==> |r.value| == |nodes|
    decreases SizeAll(nodes), 2, |nodes|
  {
    if nodes == [] then Some([])
    else
      match (Compile(nodes[0]), CompileEach(nodes[1..]))
      case (Some(first), Some(rest)) => Some([if Subtracts(nodes[0]) then [Open] + first + [Close] else first] + rest)
      case _ => None
  }

  /** What `to_match_expression` emits; None when the query cannot be ranked. */
  function ToMatch(node: Node): Option<seq<Tok>> {
    Compile(Normal(node))
  }

  predicate IsRankable(node: Node) {
    ToMatch(node).Some?
  }

  // ----- The tree the compiler means

  function Both(kind: Kind, left: Fts, right: Fts): Fts {
    match kind
    case AndKind => FAnd(left, right)
    case OrKind => FOr(left, right)
  }

  function Chain(kind: Kind, first: Fts, rest: seq<Fts>): Fts
    decreases rest
  {
    if rest == [] then first else Chain(kind, Both(kind, first, rest[0]), rest[1..])
  }

  function Intended(node: Node): Fts
    requires InNormalForm(node) && Compile(node).Some?
    decreases Size(node), 1
  {
    match node
    case Lone(_) => FLeaf(ToLeaf(node))
    case Near(_, _, _) => FLeaf(ToLeaf(node))
    case Or(operands) =>
      OperandsAreNormal(node);
      var trees := IntendedAll(operands);
      Chain(OrKind, trees[0], trees[1..])
    case And(operands) =>
      OperandsAreNormal(node);
      SplitByNot(operands);
      NegatedMembers(operands);
      var kept := IntendedAll(Plain(operands));
      var included := Chain(AndKind, kept[0], kept[1..]);
      var removed := IntendedAll(Negated(operands));
      if removed == [] then included else FNot(included, removed[0])
  }

  function IntendedAll(nodes: seq<Node>): (r: seq<Fts>)
    requires (forall x :: x in nodes ==> InNormalForm(x)) && CompileEach(nodes).Some?
    ensures |r| == |nodes|
    decreases SizeAll(nodes), 2, |nodes|
  {
    if nodes == [] then [] else [Intended(nodes[0])] + IntendedAll(nodes[1..])
  }

  lemma OperandsAreNormal(node: Node)
    requires InNormalForm(node) && (node.And? || node.Or?)
    ensures forall x :: x in node.operands ==> InNormalForm(x)
  {
    assert AreParts(if node.And? then AndKind else OrKind, node.operands);
  }

  lemma NegatedMembers(nodes: seq<Node>)
    requires forall x :: x in nodes ==> InNormalForm(x)
    ensures forall x :: x in Negated(nodes) ==> InNormalForm(x)
  {
    SplitByNot(nodes);
    forall x | x in Negated(nodes)
      ensures InNormalForm(x)
    {
      assert InNormalForm(Not(x));
    }
  }

  // ----- The emitted text reads back as that tree

  function Part(node: Node): seq<Tok>
    requires Compile(node).Some?
  {
    if Subtracts(node) then [Open] + Compile(node).value + [Close] else Compile(node).value
  }

  function Word(kind: Kind): Tok {
    match kind
    case AndKind => AndWord
    case OrKind => OrWord
  }

  function GroupTail(kind: Kind, t: Fts, s: seq<Tok>): Reading {
    match kind
    case AndKind => AndTail(t, s)
    case OrKind => OrTail(t, s)
  }

  /** The parts after the first, each behind its operator. */
  function Tail(parts: seq<seq<Tok>>, word: Tok): seq<Tok> {
    if parts == [] then [] else [word] + parts[0] + Tail(parts[1..], word)
  }

  lemma {:induction false} JoinIsTail(parts: seq<seq<Tok>>, word: Tok)
    requires parts != []
    ensures Join(parts, word) == parts[0] + Tail(parts[1..], word)
  {
    if |parts| > 1 {
      JoinIsTail(parts[1..], word);
    }
  }

  ghost predicate Stops(stop: seq<Tok>) {
    stop == [] || stop[0] == Close
  }

  predicate Heads(s: seq<Tok>, word: Tok) {
    s != [] && s[0] == word
  }

  lemma PrimaryIsNot(s: seq<Tok>, t: Fts, rest: seq<Tok>)
    requires ReadPrimary(s) == Some((t, rest)) && !Heads(rest, NotWord)
    ensures ReadNot(s) == Some((t, rest))
  {
  }

  lemma NotIsAnd(s: seq<Tok>, t: Fts, rest: seq<Tok>)
    requires ReadNot(s) == Some((t, rest)) && !Heads(rest, AndWord)
    ensures ReadAnd(s) == Some((t, rest))
  {
  }

  lemma AndIsOr(s: seq<Tok>, t: Fts, rest: seq<Tok>)
    requires ReadAnd(s) == Some((t, rest)) && !Heads(rest, OrWord)
    ensures ReadOr(s) == Some((t, rest))
  {
  }

  lemma GroupReads(inner: seq<Tok>, t: Fts, rest: seq<Tok>)
    requires ReadOr(inner + ([Close] + rest)) == Some((t, [Close] + rest))
    ensures ReadPrimary([Open] + inner + [Close] + rest) == Some((t, rest))
  {
    assert ([Open] + inner + [Close] + rest)[1..] == inner + ([Close] + rest);
    assert ([Close] + rest)[1..] == rest;
  }

  /** `after` is where a chain of `kind` goes on or stops. */
  ghost predicate Continues(kind: Kind, after: seq<Tok>) {
    Stops(after) || Heads(after, Word(kind))
  }

  lemma TailStep(kind: Kind, first: Fts, here: seq<Tok>, u: Fts, after: seq<Tok>)
    requires ReadPrimary(here) == Some((u, after)) && Continues(kind, after)
    ensures GroupTail(kind, first, [Word(kind)] + here) == GroupTail(kind, Both(kind, first, u), after)
  {
    assert ([Word(kind)] + here)[1..] == here;
    PrimaryIsNot(here, u, after);
    if kind == OrKind {
      NotIsAnd(here, u, after);
    }
  }

  lemma JoinStep(kind: Kind, s: seq<Tok>, first: Fts, after: seq<Tok>, t: Fts, stop: seq<Tok>)
    requires ReadPrimary(s) == Some((first, after)) && Continues(kind, after)
    requires GroupTail(kind, first, after) == Some((t, stop)) && Stops(stop)
    ensures ReadOr(s) == Some((t, stop))
  {
    PrimaryIsNot(s, first, after);
    if kind == OrKind {
      NotIsAnd(s, first, after);
    } else {
      AndIsOr(s, t, stop);
    }
  }

  lemma NotStep(s: seq<Tok>, t: Fts, here: seq<Tok>, u: Fts, stop: seq<Tok>)
    requires ReadPrimary(s) == Some((t, [NotWord] + here))
    requires ReadPrimary(here) == Some((u, stop)) && Stops(stop)
    ensures ReadOr(s) == Some((FNot(t, u), stop))
  {
    assert ([NotWord] + here)[1..] == here;
    assert NotTail(FNot(t, u), stop) == Some((FNot(t, u), stop));
    NotIsAnd(s, FNot(t, u), stop);
    AndIsOr(s, FNot(t, u), stop);
  }

  /** A part is always one primary, so whatever follows it is left for the operators around it. */
  lemma {:induction false} PartReads(node: Node, rest: seq<Tok>)
    requires InNormalForm(node) && Compile(node).Some?
    ensures ReadPrimary(Part(node) + rest) == Some((Intended(node), rest))
    decreases Size(node), 2
  {
    match node
    case Lone(_) =>
    case Near(_, _, _) =>
    case Or(operands) =>
      OperandsAreNormal(node);
      JoinReads(OrKind, operands, [Close] + rest);
      GroupReads(Join(CompileEach(operands).value, OrWord), Intended(node), rest);
    case And(operands) =>
      OperandsAreNormal(node);
      if Subtracts(node) {
        SubtractionReads(node, [Close] + rest);
        GroupReads(Compile(node).value, Intended(node), rest);
      } else {
        NegatedIsEmpty(operands);
        JoinReads(AndKind, operands, [Close] + rest);
        GroupReads(Join(CompileEach(operands).value, AndWord), Intended(node), rest);
      }
  }

  lemma {:induction false} NegatedIsEmpty(nodes: seq<Node>)
    requires Negated(nodes) == []
    ensures Plain(nodes) == nodes
  {
    if nodes != [] {
      NegatedIsEmpty(nodes[1..]);
    }
  }

  /** What NOT takes away from: the one part kept, or all of them in parentheses. */
  lemma {:induction false} IncludedReads(nodes: seq<Node>, rest: seq<Tok>)
    requires nodes != [] && (forall x :: x in nodes ==> InNormalForm(x)) && CompileEach(nodes).Some?
    ensures
      var kept, trees := CompileEach(nodes).value, IntendedAll(nodes);
      ReadPrimary((if |kept| == 1 then kept[0] else [Open] + Join(kept, AndWord) + [Close]) + rest)
      == Some((Chain(AndKind, trees[0], trees[1..]), rest))
    decreases SizeAll(nodes), 4
  {
    if |nodes| == 1 {
      PartReads(nodes[0], rest);
    } else {
      var trees := IntendedAll(nodes);
      JoinReads(AndKind, nodes, [Close] + rest);
      GroupReads(Join(CompileEach(nodes).value, AndWord), Chain(AndKind, trees[0], trees[1..]), rest);
    }
  }

  /** `included NOT removed` without parentheses around it, where no further NOT follows. */
  lemma {:induction false} SubtractionReads(node: Node, stop: seq<Tok>)
    requires InNormalForm(node) && Compile(node).Some? && Subtracts(node) && Stops(stop)
    ensures ReadOr(Compile(node).value + stop) == Some((Intended(node), stop))
    decreases Size(node), 1
  {
    var plain, negated := Plain(node.operands), Negated(node.operands);
    OperandsAreNormal(node);
    SplitByNot(node.operands);
    NegatedMembers(node.operands);
    var kept, removed := CompileEach(plain).value, CompileEach(negated).value;
    var included := if |kept| == 1 then kept[0] else [Open] + Join(kept, AndWord) + [Close];
    var here := removed[0] + stop;
    assert Compile(node).value + stop == included + ([NotWord] + here);
    IncludedReads(plain, [NotWord] + here);
    PartReads(negated[0], stop);
    var trees := IntendedAll(plain);
    NotStep(Compile(node).value + stop, Chain(AndKind, trees[0], trees[1..]), here, Intended(negated[0]), stop);
  }

  lemma {:induction false} JoinReads(kind: Kind, nodes: seq<Node>, stop: seq<Tok>)
    requires nodes != [] && (forall x :: x in nodes ==> InNormalForm(x)) && CompileEach(nodes).Some? && Stops(stop)
    ensures
      var trees := IntendedAll(nodes);
      ReadOr(Join(CompileEach(nodes).value, Word(kind)) + stop) == Some((Chain(kind, trees[0], trees[1..]), stop))
    decreases SizeAll(nodes), 3
  {
    var parts := CompileEach(nodes).value;
    EachSplits(nodes);
    JoinSplits(parts, Word(kind), stop);
    var after := Tail(parts[1..], Word(kind)) + stop;
    PartReads(nodes[0], after);
    TailReads(kind, Intended(nodes[0]), nodes[1..], stop);
    TailContinues(kind, parts[1..], stop);
    JoinStep(kind, Part(nodes[0]) + after, Intended(nodes[0]), after,
             Chain(kind, Intended(nodes[0]), IntendedAll(nodes[1..])), stop);
  }

  lemma JoinSplits(parts: seq<seq<Tok>>, word: Tok, stop: seq<Tok>)
    requires parts != []
    ensures Join(parts, word) + stop == parts[0] + (Tail(parts[1..], word) + stop)
  {
    JoinIsTail(parts, word);
  }

  lemma TailContinues(kind: Kind, parts: seq<seq<Tok>>, stop: seq<Tok>)
    requires Stops(stop)
    ensures Continues(kind, Tail(parts, Word(kind)) + stop)
  {
    if parts == [] {
      assert Tail(parts, Word(kind)) + stop == stop;
    }
  }

  lemma EachSplits(nodes: seq<Node>)
    requires nodes != [] && (forall x :: x in nodes ==> InNormalForm(x)) && CompileEach(nodes).Some?
    ensures Compile(nodes[0]).Some? && CompileEach(nodes[1..]).Some?
    ensures CompileEach(nodes).value[0] == Part(nodes[0])
    ensures CompileEach(nodes).value[1..] == CompileEach(nodes[1..]).value
    ensures IntendedAll(nodes)[0] == Intended(nodes[0]) && IntendedAll(nodes)[1..] == IntendedAll(nodes[1..])
  {
  }

  lemma {:induction false} TailReads(kind: Kind, first: Fts, nodes: seq<Node>, stop: seq<Tok>)
    requires (forall x :: x in nodes ==> InNormalForm(x)) && CompileEach(nodes).Some? && Stops(stop)
    ensures GroupTail(kind, first, Tail(CompileEach(nodes).value, Word(kind)) + stop)
            == Some((Chain(kind, first, IntendedAll(nodes)), stop))
    decreases SizeAll(nodes), 3, |nodes|
  {
    var parts := CompileEach(nodes).value;
    if nodes == [] {
      assert Tail(parts, Word(kind)) + stop == stop;
    } else {
      EachSplits(nodes);
      var after := Tail(parts[1..], Word(kind)) + stop;
      var here := Part(nodes[0]) + after;
      TailSplits(parts, Word(kind), stop);
      PartReads(nodes[0], after);
      TailContinues(kind, parts[1..], stop);
      TailStep(kind, first, here, Intended(nodes[0]), after);
      TailReads(kind, Both(kind, first, Intended(nodes[0])), nodes[1..], stop);
    }
  }

  lemma TailSplits(parts: seq<seq<Tok>>, word: Tok, stop: seq<Tok>)
    requires parts != []
    ensures Tail(parts, word) + stop == [word] + (parts[0] + (Tail(parts[1..], word) + stop))
  {
  }

  /** The emitted expression, read by FTS5's own precedence, is the tree the compiler means, whole. */
  lemma MatchReadsBack(node: Node)
    requires InNormalForm(node) && Compile(node).Some?
    ensures ReadOr(Compile(node).value) == Some((Intended(node), []))
  {
    var toks := Compile(node).value;
    assert toks + [] == toks;
    if Subtracts(node) {
      SubtractionReads(node, []);
    } else {
      PartReads(node, []);
      PrimaryIsNot(toks, Intended(node), []);
      NotIsAnd(toks, Intended(node), []);
      AndIsOr(toks, Intended(node), []);
    }
  }

  // ----- The tree selects what the query holds for

  /** The same test on leaves, asked of query leaves instead of their FTS5 form. */
  function Oracle(leaf: FtsLeaf -> bool): Node -> bool {
    (n: Node) => (n.Lone? || n.Near?) && leaf(ToLeaf(n))
  }

  predicate SelectsGroup(kind: Kind, trees: seq<Fts>, leaf: FtsLeaf -> bool) {
    match kind
    case AndKind => forall t :: t in trees ==> Selects(t, leaf)
    case OrKind => exists t :: t in trees && Selects(t, leaf)
  }

  lemma {:induction false} ChainSelects(kind: Kind, first: Fts, rest: seq<Fts>, leaf: FtsLeaf -> bool)
    ensures Selects(Chain(kind, first, rest), leaf) ==
            match kind
            case AndKind => Selects(first, leaf) && SelectsGroup(AndKind, rest, leaf)
            case OrKind => Selects(first, leaf) || SelectsGroup(OrKind, rest, leaf)
    decreases rest
  {
    if rest != [] {
      ChainSelects(kind, Both(kind, first, rest[0]), rest[1..], leaf);
      FirstAndRestSelect(rest, leaf);
    }
  }

  lemma FirstAndRestSelect(trees: seq<Fts>, leaf: FtsLeaf -> bool)
    requires trees != []
    ensures SelectsGroup(AndKind, trees, leaf) == (Selects(trees[0], leaf) && SelectsGroup(AndKind, trees[1..], leaf))
    ensures SelectsGroup(OrKind, trees, leaf) == (Selects(trees[0], leaf) || SelectsGroup(OrKind, trees[1..], leaf))
  {
    assert forall t :: t in trees <==> t == trees[0] || t in trees[1..];
    assert trees[0] in trees;
  }

  lemma {:induction false} IntendedHolds(node: Node, leaf: FtsLeaf -> bool)
    requires InNormalForm(node) && Compile(node).Some?
    ensures Selects(Intended(node), leaf) == Holds(node, Oracle(leaf))
    decreases Size(node), 1
  {
    match node
    case Lone(_) =>
    case Near(_, _, _) =>
    case Or(operands) =>
      OperandsAreNormal(node);
      JoinedHolds(OrKind, operands, leaf);
    case And(operands) =>
      OperandsAreNormal(node);
      SplitByNot(operands);
      NegatedMembers(operands);
      SplitHolds(operands, Oracle(leaf));
      JoinedHolds(AndKind, Plain(operands), leaf);
      if Negated(operands) != [] {
        var removed := Negated(operands)[0];
        IntendedHolds(removed, leaf);
        assert Negated(operands)[1..] == [];
      }
  }

  lemma {:induction false} JoinedHolds(kind: Kind, nodes: seq<Node>, leaf: FtsLeaf -> bool)
    requires nodes != [] && (forall x :: x in nodes ==> InNormalForm(x)) && CompileEach(nodes).Some?
    ensures
      var trees := IntendedAll(nodes);
      Selects(Chain(kind, trees[0], trees[1..]), leaf) == HoldsGroup(kind, nodes, Oracle(leaf))
    decreases SizeAll(nodes), 3
  {
    var trees := IntendedAll(nodes);
    EachHolds(kind, nodes, leaf);
    ChainSelects(kind, trees[0], trees[1..], leaf);
    assert trees == [trees[0]] + trees[1..];
  }

  lemma {:induction false} EachHolds(kind: Kind, nodes: seq<Node>, leaf: FtsLeaf -> bool)
    requires (forall x :: x in nodes ==> InNormalForm(x)) && CompileEach(nodes).Some?
    ensures SelectsGroup(kind, IntendedAll(nodes), leaf) == HoldsGroup(kind, nodes, Oracle(leaf))
    decreases SizeAll(nodes), 2, |nodes|
  {
    if nodes != [] {
      EachSplits(nodes);
      IntendedHolds(nodes[0], leaf);
      EachHolds(kind, nodes[1..], leaf);
      var trees := IntendedAll(nodes);
      assert trees == [trees[0]] + trees[1..];
    }
  }

  /** Whether FTS5 reads all of `toks` as one expression, and that expression selects a document. */
  predicate TextSelects(toks: seq<Tok>, leaf: FtsLeaf -> bool) {
    match ReadOr(toks)
    case Some((t, rest)) => rest == [] && Selects(t, leaf)
    case None => false
  }

  /** A compiled query selects exactly the documents the query holds for, whatever the leaves match. */
  lemma MatchMeansQuery(node: Node, leaf: FtsLeaf -> bool)
    requires Builds(node) && ToMatch(node).Some?
    ensures ReadOr(ToMatch(node).value).Some? && ReadOr(ToMatch(node).value).value.1 == []
    ensures TextSelects(ToMatch(node).value, leaf) == Holds(node, Oracle(leaf))
  {
    NormalIsNormalForm(node);
    MatchReadsBack(Normal(node));
    IntendedHolds(Normal(node), leaf);
    NormalHolds(node, Oracle(leaf));
  }

  lemma LoneCompiles(a: Node, rest: seq<Node>)
    requires a.Lone? && CompileEach(rest).Some?
    ensures CompileEach([a] + rest) == Some([[Literal(ToLeaf(a))]] + CompileEach(rest).value)
  {
    assert ([a] + rest)[1..] == rest;
    assert Compile(a) == Some([Literal(ToLeaf(a))]);
  }

  /** The compiler reads only the first Not of an And, so without the normal form it would lose the others. */
  lemma OnlyTheFirstNotIsRead(a: Node, b: Node, c: Node) returns (leaf: FtsLeaf -> bool)
    requires a.Lone? && b.Lone? && c.Lone? && ToLeaf(a) != ToLeaf(b) && ToLeaf(b) != ToLeaf(c)
    ensures Compile(And([a, Not(b), Not(c)])).Some?
    ensures TextSelects(Compile(And([a, Not(b), Not(c)])).value, leaf) != Holds(And([a, Not(b), Not(c)]), Oracle(leaf))
  {
    var nodes := [a, Not(b), Not(c)];
    leaf := (l: FtsLeaf) => l != ToLeaf(b);
    assert nodes[1..] == [Not(b), Not(c)] && nodes[1..][1..] == [Not(c)] && nodes[1..][1..][1..] == [];
    assert Plain(nodes) == [a] && Negated(nodes) == [b, c];
    LoneCompiles(a, []);
    LoneCompiles(c, []);
    LoneCompiles(b, [c]);
    assert [a] + [] == [a] && [c] + [] == [c] && [b] + [c] == [b, c];
    var toks := [Literal(ToLeaf(a)), NotWord, Literal(ToLeaf(b))];
    assert Compile(And(nodes)).value == toks;
    assert toks[1..] == [NotWord] + [Literal(ToLeaf(b))];
    NotStep(toks, FLeaf(ToLeaf(a)), [Literal(ToLeaf(b))], FLeaf(ToLeaf(b)), []);
    assert Oracle(leaf)(a) && !Oracle(leaf)(b) && Oracle(leaf)(c);
    SplitHolds(nodes, Oracle(leaf));
    assert [b, c][1..] == [c];
    assert HoldsAny([c], Oracle(leaf));
    assert HoldsAny([b, c], Oracle(leaf));
    assert !Holds(And(nodes), Oracle(leaf));
    assert Selects(FLeaf(ToLeaf(a)), leaf) && !Selects(FLeaf(ToLeaf(b)), leaf);
  }

  // ----- Which queries can be ranked

  /** The rule by which a tree can be ranked: a leaf can; an Or if every operand can; an And if every operand that is no
      Not can, and so can the operand of each that is one; a Not never. */
  ghost predicate CanRank(node: Node) {
    match node
    case Or(operands) => forall x :: x in operands ==> CanRank(x)
    case And(operands) => forall x :: x in operands ==> if x.Not? then CanRank(x.operand) else CanRank(x)
    case Not(_) => false
    case _ => true
  }

  lemma {:induction false} NegatedAre(nodes: seq<Node>)
    ensures forall x :: x in Negated(nodes) <==> Not(x) in nodes
    ensures forall x :: x in Plain(nodes) <==> x in nodes && !x.Not?
  {
    if nodes != [] {
      NegatedAre(nodes[1..]);
      assert forall x :: x in nodes <==> x == nodes[0] || x in nodes[1..];
    }
  }

  lemma {:induction false} EachCompiles(nodes: seq<Node>)
    ensures CompileEach(nodes).Some? <==> forall x :: x in nodes ==> Compile(x).Some?
  {
    if nodes != [] {
      EachCompiles(nodes[1..]);
      assert nodes[0] in nodes;
      assert forall x :: x in nodes <==> x == nodes[0] || x in nodes[1..];
    }
  }

  /** Compiling the operand takes exactly what the rule does. */
  ghost predicate ByTheRule(operand: Node) {
    if operand.Not? then Compile(operand.operand).Some? == CanRank(operand.operand) else Compile(operand).Some? == CanRank(operand)
  }

  /** The compiler takes exactly the trees the rule does. */
  lemma {:induction false} CompilesByTheRule(node: Node)
    ensures Compile(node).Some? <==> CanRank(node)
    decreases node
  {
    match node
    case Or(operands) =>
      EachCompiles(operands);
      forall x | x in operands
        ensures Compile(x).Some? == CanRank(x)
      {
        CompilesByTheRule(x);
      }
    case And(operands) =>
      forall x | x in operands
        ensures ByTheRule(x)
      {
        CompilesByTheRule(if x.Not? then x.operand else x);
      }
      AndCompilesByTheRule(operands);
    case _ =>
  }

  lemma {:induction false} AndCompilesByTheRule(operands: seq<Node>)
    requires forall x :: x in operands ==> ByTheRule(x)
    ensures Compile(And(operands)).Some? <==> CanRank(And(operands))
  {
    EachCompiles(Plain(operands));
    EachCompiles(Negated(operands));
    NegatedAre(operands);
    if CanRank(And(operands)) {
      forall x | x in Negated(operands)
        ensures Compile(x).Some?
      {
        assert ByTheRule(Not(x));
      }
    } else {
      var x :| x in operands && !(if x.Not? then CanRank(x.operand) else CanRank(x));
      assert ByTheRule(x) && (x.Not? ==> x.operand in Negated(operands));
    }
  }

  /** A query can be ranked exactly when its canonical form can be by the rule. */
  lemma RankableByTheRule(node: Node)
    ensures IsRankable(node) <==> CanRank(Normal(node))
  {
    CompilesByTheRule(Normal(node));
  }

  /** A ranked query never matches a document in which none of its leaves does. */
  lemma RankedNeedsAHit(node: Node)
    requires Builds(node) && IsRankable(node)
    ensures !Holds(node, _ => false)
  {
    NormalIsNormalForm(node);
    NormalHolds(node, _ => false);
    CompiledNeedsAHit(Normal(node));
  }

  lemma {:induction false} CompiledNeedsAHit(node: Node)
    requires InNormalForm(node) && Compile(node).Some?
    ensures !Holds(node, _ => false)
    decreases Size(node), 1
  {
    match node
    case Lone(_) =>
    case Near(_, _, _) =>
    case Or(operands) =>
      OperandsAreNormal(node);
      EachNeedsAHit(operands);
    case And(operands) =>
      OperandsAreNormal(node);
      SplitByNot(operands);
      SplitHolds(operands, _ => false);
      EachNeedsAHit(Plain(operands));
  }

  lemma {:induction false} EachNeedsAHit(nodes: seq<Node>)
    requires (forall x :: x in nodes ==> InNormalForm(x)) && CompileEach(nodes).Some?
    ensures !HoldsAny(nodes, _ => false)
    ensures nodes != [] ==> !HoldsAll(nodes, _ => false)
    decreases SizeAll(nodes), 2, |nodes|
  {
    if nodes != [] {
      CompiledNeedsAHit(nodes[0]);
      EachNeedsAHit(nodes[1..]);
    }
  }

  /** Only a negation can keep a query from being ranked. */
  lemma NotFreeIsRankable(node: Node, p: Node -> bool)
    requires Consists(node, false, p)
    ensures IsRankable(node)
  {
    NormalConsists(node, false, p);
    NotFreeCompiles(Normal(node), p);
  }

  lemma {:induction false} NotFreeCompiles(node: Node, p: Node -> bool)
    requires Consists(node, false, p)
    ensures Compile(node).Some?
    decreases Size(node), 1
  {
    match node
    case Or(operands) => NotFreeEach(operands, p);
    case And(operands) =>
      NoNots(operands);
      NotFreeEach(operands, p);
    case _ =>
  }

  lemma {:induction false} NotFreeEach(nodes: seq<Node>, p: Node -> bool)
    requires forall x :: x in nodes ==> Consists(x, false, p)
    ensures CompileEach(nodes).Some?
    decreases SizeAll(nodes), 2, |nodes|
  {
    if nodes != [] {
      NotFreeCompiles(nodes[0], p);
      NotFreeEach(nodes[1..], p);
    }
  }

  // ----- The SQL filter, for every query

  /** A condition stands for `d.doc_id IN (... MATCH ?)`; it takes the next parameter. */
  datatype Sql =
    | Condition
    | SNot(part: Sql)
    | SGroup(kind: Kind, parts: seq<Sql>)

  /** The value of a filter on one document, and the parameters its placeholders did not take. */
  function Value(sql: Sql, parameters: seq<seq<Tok>>, leaf: FtsLeaf -> bool): (bool, seq<seq<Tok>>)
    decreases sql, 1
  {
    match sql
    case Condition => if parameters == [] then (false, []) else (TextSelects(parameters[0], leaf), parameters[1..])
    case SNot(part) =>
      var (value, rest) := Value(part, parameters, leaf);
      (!value, rest)
    case SGroup(kind, parts) => GroupValue(kind, parts, parameters, leaf)
  }

  function GroupValue(kind: Kind, parts: seq<Sql>, parameters: seq<seq<Tok>>, leaf: FtsLeaf -> bool): (bool, seq<seq<Tok>>)
    decreases parts, 0
  {
    if parts == [] then (kind == AndKind, parameters)
    else
      var (first, middle) := Value(parts[0], parameters, leaf);
      var (others, rest) := GroupValue(kind, parts[1..], middle, leaf);
      (if kind == AndKind then first && others else first || others, rest)
  }

  function FilterSql(node: Node): Sql
    decreases node, 1
  {
    if node.Not? then SNot(FilterSql(node.operand))
    else if Compile(node).Some? then Condition
    else if node.And? then SGroup(AndKind, FilterSqls(node.operands))
    else if node.Or? then SGroup(OrKind, FilterSqls(node.operands))
    else Condition
  }

  function FilterSqls(nodes: seq<Node>): seq<Sql>
    decreases nodes, 0
  {
    if nodes == [] then [] else [FilterSql(nodes[0])] + FilterSqls(nodes[1..])
  }

  function FilterParameters(node: Node): seq<seq<Tok>>
    decreases node, 1
  {
    if node.Not? then FilterParameters(node.operand)
    else if Compile(node).Some? then [Compile(node).value]
    else if node.And? || node.Or? then FilterParametersAll(node.operands)
    else []
  }

  function FilterParametersAll(nodes: seq<Node>): seq<seq<Tok>>
    decreases nodes, 0
  {
    if nodes == [] then [] else FilterParameters(nodes[0]) + FilterParametersAll(nodes[1..])
  }

  lemma {:induction false} FilterHolds(node: Node, more: seq<seq<Tok>>, leaf: FtsLeaf -> bool)
    requires InNormalForm(node)
    ensures Value(FilterSql(node), FilterParameters(node) + more, leaf) == (Holds(node, Oracle(leaf)), more)
    decreases node, 1
  {
    if node.Not? {
      FilterHolds(node.operand, more, leaf);
    } else if Compile(node).Some? {
      MatchReadsBack(node);
      IntendedHolds(node, leaf);
      assert (FilterParameters(node) + more)[1..] == more;
    } else if node.And? || node.Or? {
      OperandsAreNormal(node);
      FilterGroupHolds(if node.And? then AndKind else OrKind, node.operands, more, leaf);
    }
  }

  lemma {:induction false} FilterGroupHolds(kind: Kind, nodes: seq<Node>, more: seq<seq<Tok>>, leaf: FtsLeaf -> bool)
    requires forall x :: x in nodes ==> InNormalForm(x)
    ensures GroupValue(kind, FilterSqls(nodes), FilterParametersAll(nodes) + more, leaf)
            == (HoldsGroup(kind, nodes, Oracle(leaf)), more)
    decreases nodes, 0
  {
    if nodes == [] {
      assert FilterParametersAll(nodes) + more == more;
    } else {
      var rest := FilterParametersAll(nodes[1..]) + more;
      FilterHolds(nodes[0], rest, leaf);
      FilterGroupHolds(kind, nodes[1..], more, leaf);
      assert FilterParametersAll(nodes) + more == FilterParameters(nodes[0]) + rest;
    }
  }

  /** Every query has a filter that holds exactly where the query does, and whose placeholders take
      exactly its parameters, in order. */
  lemma FilterMeansQuery(node: Node, leaf: FtsLeaf -> bool)
    requires Builds(node)
    ensures Value(FilterSql(Normal(node)), FilterParameters(Normal(node)), leaf) == (Holds(node, Oracle(leaf)), [])
  {
    NormalIsNormalForm(node);
    NormalHolds(node, Oracle(leaf));
    FilterHolds(Normal(node), [], leaf);
    assert FilterParameters(Normal(node)) + [] == FilterParameters(Normal(node));
  }

  /** The parts of the tree that can be ranked by the rule and are in no larger such part, from left to right. */
  ghost function LargestRankable(node: Node): seq<Node>
    decreases node, 1
  {
    if CanRank(node) then [node]
    else
      match node
      case Not(x) => LargestRankable(x)
      case And(operands) => LargestRankableAll(operands)
      case Or(operands) => LargestRankableAll(operands)
      case _ => []
  }

  ghost function LargestRankableAll(nodes: seq<Node>): seq<Node>
    decreases nodes, 0
  {
    if nodes == [] then [] else LargestRankable(nodes[0]) + LargestRankableAll(nodes[1..])
  }

  /** The expressions the nodes compile to, one after another. */
  ghost predicate AreExpressionsOf(parameters: seq<seq<Tok>>, nodes: seq<Node>) {
    && |parameters| == |nodes|
    && forall i :: 0 <= i < |nodes| ==> Compile(nodes[i]) == Some(parameters[i])
  }

  /** A filter has one placeholder, and one parameter, for each largest part that can be ranked. */
  lemma {:induction false} FilterTakesTheLargest(node: Node)
    ensures AreExpressionsOf(FilterParameters(node), LargestRankable(node))
    ensures CanRank(node) ==> FilterSql(node) == Condition
    decreases node, 1
  {
    CompilesByTheRule(node);
    if node.Not? {
      FilterTakesTheLargest(node.operand);
    } else if Compile(node).None? {
      FiltersTakeTheLargest(node.operands);
    }
  }

  lemma {:induction false} FiltersTakeTheLargest(nodes: seq<Node>)
    ensures AreExpressionsOf(FilterParametersAll(nodes), LargestRankableAll(nodes))
    decreases nodes, 0
  {
    if nodes != [] {
      FilterTakesTheLargest(nodes[0]);
      FiltersTakeTheLargest(nodes[1..]);
      var (first, rest) := (LargestRankable(nodes[0]), LargestRankableAll(nodes[1..]));
      forall i | 0 <= i < |first| + |rest|
        ensures Compile((first + rest)[i]) == Some(FilterParametersAll(nodes)[i])
      {
        if i >= |first| {
          assert Compile(rest[i - |first|]) == Some(FilterParametersAll(nodes[1..])[i - |first|]);
        }
      }
    }
  }

  /** The list of parameters that compiling a filter appends to. */
  class Parameters {
    var items: seq<seq<Tok>>

    constructor ()
      ensures items == []
    {
      items := [];
    }
  }

  method Leaf(expression: seq<Tok>, parameters: Parameters) returns (sql: Sql)
    modifies parameters
    ensures sql == Condition && parameters.items == old(parameters.items) + [expression]
  {
    parameters.items := parameters.items + [expression];
    return Condition;
  }

  method Filter(node: Node, parameters: Parameters) returns (sql: Sql)
    modifies parameters
    ensures sql == FilterSql(node) && parameters.items == old(parameters.items) + FilterParameters(node)
    decreases node
  {
    if node.Lone? || node.Near? {
      sql := Leaf([Literal(ToLeaf(node))], parameters);
    } else if node.Not? {
      var part := Filter(node.operand, parameters);
      return SNot(part);
    } else {
      var expression := Compile(node);
      if expression.Some? {
        sql := Leaf(expression.value, parameters);
      } else {
        var parts: seq<Sql> := [];
        for i := 0 to |node.operands|
          invariant parts == FilterSqls(node.operands[..i])
          invariant parameters.items == old(parameters.items) + FilterParametersAll(node.operands[..i])
        {
          var part := Filter(node.operands[i], parameters);
          FilterGrows(node.operands, i);
          parts := parts + [part];
        }
        assert node.operands[..|node.operands|] == node.operands;
        return SGroup(if node.And? then AndKind else OrKind, parts);
      }
    }
  }

  lemma {:induction false} FilterSqlsJoin(a: seq<Node>, b: seq<Node>)
    ensures FilterSqls(a + b) == FilterSqls(a) + FilterSqls(b)
  {
    if a == [] {
      assert a + b == b;
    } else {
      assert (a + b)[1..] == a[1..] + b;
      FilterSqlsJoin(a[1..], b);
    }
  }

  lemma {:induction false} FilterParametersJoin(a: seq<Node>, b: seq<Node>)
    ensures FilterParametersAll(a + b) == FilterParametersAll(a) + FilterParametersAll(b)
  {
    if a == [] {
      assert a + b == b;
    } else {
      assert (a + b)[1..] == a[1..] + b && (a + b)[0] == a[0];
      FilterParametersJoin(a[1..], b);
      assert FilterParametersAll(a) == FilterParameters(a[0]) + FilterParametersAll(a[1..]);
    }
  }

  lemma FilterGrows(nodes: seq<Node>, i: nat)
    requires i < |nodes|
    ensures FilterSqls(nodes[..i + 1]) == FilterSqls(nodes[..i]) + [FilterSql(nodes[i])]
    ensures FilterParametersAll(nodes[..i + 1]) == FilterParametersAll(nodes[..i]) + FilterParameters(nodes[i])
  {
    FilterSqlsJoin(nodes[..i], [nodes[i]]);
    FilterParametersJoin(nodes[..i], [nodes[i]]);
    assert nodes[..i + 1] == nodes[..i] + [nodes[i]];
    assert [nodes[i]][1..] == [];
  }

  // ----- Agreement with the evaluator on documents

  /** What FTS5 matches for a literal: its text is tokenized again, like the words of a query leaf. */
  function AsQuery(leaf: FtsLeaf): Node {
    match leaf
    case OnePhrase(columns, phrase) => Lone(Term(phrase.text, columns, phrase.isPrefix))
    case NearGroup(columns, phrases, distance) =>
      Near(seq(|phrases|, i requires 0 <= i < |phrases| => Term(phrases[i].text, [], phrases[i].isPrefix)), distance, columns)
  }

  ghost function OnDocument(document: Indexed, tokenize: Tokenizer): FtsLeaf -> bool {
    (l: FtsLeaf) => LeafHolds(AsQuery(l), document, tokenize)
  }

  /** Nothing differs but that some NULs of the one text are spaces in the other. */
  ghost predicate DiffersInNuls(text: string, other: string) {
    |text| == |other| && forall i :: 0 <= i < |text| ==> text[i] == other[i] || (text[i] == '\0' && other[i] == ' ')
  }

  /** What is sent has no NUL, and differs in nothing else. */
  lemma SendableIs(text: string)
    ensures '\0' !in Sendable(text) && DiffersInNuls(text, Sendable(text))
  {
  }

  /** The characters SQLite cannot take separate words for the tokenizer, as a space does. */
  ghost predicate SeparatesUnsendable(tokenize: Tokenizer) {
    forall text, other :: DiffersInNuls(text, other) ==> tokenize(text) == tokenize(other)
  }

  lemma SentLeafIsTheSame(leaf: Leaf, columns: seq<Field>, document: Indexed, tokenize: Tokenizer)
    requires SeparatesUnsendable(tokenize)
    ensures
      var sent := Term(ToPhrase(leaf).text, columns, ToPhrase(leaf).isPrefix);
      && LeafWords(tokenize, sent) == LeafWords(tokenize, leaf)
      && IsPrefix(sent) == IsPrefix(leaf)
      && Occurrences(sent, document, tokenize) == Occurrences(Scoped(leaf, columns), document, tokenize)
  {
    SendableIs(match leaf case Term(text, _, _) => text case Phrase(words, _) => Joined(words));
    assert LeafWords(tokenize, Scoped(leaf, columns)) == LeafWords(tokenize, leaf);
  }

  lemma LeavesAgree(node: Node, document: Indexed, tokenize: Tokenizer)
    requires Builds(node) && (node.Lone? || node.Near?) && SeparatesUnsendable(tokenize)
    ensures OnDocument(document, tokenize)(ToLeaf(node)) == LeafHolds(node, document, tokenize)
  {
    var sent := AsQuery(ToLeaf(node));
    match node
    case Lone(leaf) =>
      SentLeafIsTheSame(leaf, leaf.fields, document, tokenize);
    case Near(members, distance, scope) =>
      var there, here := ScopedMembers(sent), ScopedMembers(node);
      forall i | 0 <= i < |members|
        ensures Occurrences(there[i], document, tokenize) == Occurrences(here[i], document, tokenize)
        ensures LeafWords(tokenize, there[i]) == LeafWords(tokenize, here[i])
      {
        SentLeafIsTheSame(members[i], scope, document, tokenize);
        assert there[i] == Term(ToPhrase(members[i]).text, scope, ToPhrase(members[i]).isPrefix);
      }
      assert Found(there, document, tokenize) == Found(here, document, tokenize);
      assert Lengths(there, tokenize) == Lengths(here, tokenize);
  }

  lemma {:induction false} TreesAgree(node: Node, document: Indexed, tokenize: Tokenizer)
    requires Builds(node) && SeparatesUnsendable(tokenize)
    ensures Holds(node, Oracle(OnDocument(document, tokenize))) == Satisfies(node, document, tokenize)
    decreases node, 1
  {
    match node
    case Not(x) => TreesAgree(x, document, tokenize);
    case And(operands) => GroupsAgree(AndKind, operands, document, tokenize);
    case Or(operands) => GroupsAgree(OrKind, operands, document, tokenize);
    case _ => LeavesAgree(node, document, tokenize);
  }

  lemma {:induction false} GroupsAgree(kind: Kind, nodes: seq<Node>, document: Indexed, tokenize: Tokenizer)
    requires (forall x :: x in nodes ==> Builds(x)) && SeparatesUnsendable(tokenize)
    ensures HoldsGroup(kind, nodes, Oracle(OnDocument(document, tokenize)))
            == HoldsGroup(kind, nodes, n => LeafHolds(n, document, tokenize))
    decreases nodes, 0
  {
    if nodes != [] {
      TreesAgree(nodes[0], document, tokenize);
      GroupsAgree(kind, nodes[1..], document, tokenize);
    }
  }

  /** The ranked search and the filter both select exactly the documents the evaluator accepts. */
  lemma StoreAgreesWithEvaluator(node: Node, document: Indexed, tokenize: Tokenizer)
    requires Builds(node) && SeparatesUnsendable(tokenize)
    ensures IsRankable(node) ==>
              TextSelects(ToMatch(node).value, OnDocument(document, tokenize)) == Satisfies(node, document, tokenize)
    ensures Value(FilterSql(Normal(node)), FilterParameters(Normal(node)), OnDocument(document, tokenize))
            == (Satisfies(node, document, tokenize), [])
  {
    TreesAgree(node, document, tokenize);
    FilterMeansQuery(node, OnDocument(document, tokenize));
    if IsRankable(node) {
      MatchMeansQuery(node, OnDocument(document, tokenize));
    }
  }

  // ----- The compiler as the source runs it

  method CompileNode(node: Node) returns (r: Option<seq<Tok>>)
    ensures r == Compile(node)
    decreases Size(node), 1
  {
    match node
    case Lone(_) => r := Some([Literal(ToLeaf(node))]);
    case Near(_, _, _) => r := Some([Literal(ToLeaf(node))]);
    case Or(operands) =>
      var alternatives := CompileOperands(operands);
      r := if alternatives == None then None else Some([Open] + Join(alternatives.value, OrWord) + [Close]);
    case And(operands) =>
      var kept := CompileOperands(Plain(operands));
      var removed := CompileOperands(Negated(operands));
      if kept == None || removed == None {
        return None;
      }
      var included := if |kept.value| == 1 then kept.value[0] else [Open] + Join(kept.value, AndWord) + [Close];
      r := Some(if removed.value != [] then included + [NotWord] + removed.value[0] else included);
    case Not(_) => r := None;
  }

  function Prepended(parts: seq<seq<Tok>>, r: Option<seq<seq<Tok>>>): Option<seq<seq<Tok>>> {
    if r == None then None else Some(parts + r.value)
  }

  lemma PrependsTwice(parts: seq<seq<Tok>>, part: seq<Tok>, r: Option<seq<seq<Tok>>>)
    ensures Prepended(parts, Prepended([part], r)) == Prepended(parts + [part], r)
  {
    if r.Some? {
      assert parts + ([part] + r.value) == parts + [part] + r.value;
    }
  }

  method CompileOperands(nodes: seq<Node>) returns (r: Option<seq<seq<Tok>>>)
    ensures r == CompileEach(nodes)
    decreases SizeAll(nodes), 2
  {
    var compiled: seq<seq<Tok>> := [];
    assert CompileEach(nodes).Some? ==> [] + CompileEach(nodes).value == CompileEach(nodes).value;
    assert nodes[0..] == nodes;
    for i := 0 to |nodes|
      invariant CompileEach(nodes) == Prepended(compiled, CompileEach(nodes[i..]))
    {
      SizeOfMember(nodes, i);
      var expression := CompileNode(nodes[i]);
      assert nodes[i..][1..] == nodes[i + 1..];
      if expression == None {
        return None;
      }
      var part := if Subtracts(nodes[i]) then [Open] + expression.value + [Close] else expression.value;
      assert CompileEach(nodes[i..]) == Prepended([part], CompileEach(nodes[i + 1..]));
      PrependsTwice(compiled, part, CompileEach(nodes[i + 1..]));
      compiled := compiled + [part];
    }
    assert compiled + [] == compiled;
    return Some(compiled);
  }
}
