/** Deciding a query on a tokenized document (search/evaluate.py). */
module Evaluate {
  import opened Query
  import opened NearWalk
  import opened NearHits

  type Tokenizer = string -> seq<string>

  datatype Document = Document(title: seq<string>, abstractText: seq<string>, body: seq<string>) {
    function Tokens(field: Field): seq<string> {
      match field
      case Title => title
      case Abstract => abstractText
      case Body => body
    }

    /** No field holds more than `size` tokens. */
    ghost predicate Fits(size: nat) {
      forall f: Field :: |Tokens(f)| <= size
    }
  }

  // ----- Where a word or phrase occurs

  function Joined(words: seq<string>): string {
    if |words| == 0 then ""
    else if |words| == 1 then words[0]
    else words[0] + " " + Joined(words[1..])
  }

  function LeafWords(tokenize: Tokenizer, leaf: Leaf): seq<string> {
    tokenize(if leaf.Term? then leaf.text else Joined(leaf.words))
  }

  predicate IsPrefix(leaf: Leaf) {
    leaf.Term? && leaf.isPrefix
  }

  /** Every field, when none is named. */
  function Searched(fields: seq<Field>): (r: seq<Field>)
    ensures forall f :: f in r <==> fields == [] || f in fields
  {
    assert forall f: Field :: f in FIELDS by {
      forall f: Field
        ensures f in FIELDS
      {
        assert FIELDS[Index(f)] == f;
      }
    }
    if fields == [] then FIELDS else fields
  }

  /** The field is one of those named, and any field is when none is. */
  ghost predicate InScope(fields: seq<Field>, f: Field) {
    fields == [] || f in fields
  }

  predicate StartsHere(tokens: seq<string>, query: seq<string>, prefix: bool, start: nat)
    requires query != [] && start + |query| <= |tokens|
  {
    var leading, last := query[..|query| - 1], query[|query| - 1];
    var candidate := tokens[start + |leading|];
    (if prefix then last <= candidate else candidate == last) && tokens[start..start + |leading|] == leading
  }

  function Starts(tokens: seq<string>, query: seq<string>, prefix: bool, from: nat := 0): seq<nat>
    decreases |tokens| - from
  {
    if query == [] || from + |query| > |tokens| then []
    else (if StartsHere(tokens, query, prefix, from) then [from] else []) + Starts(tokens, query, prefix, from + 1)
  }

  /** The words of `query` stand in `tokens` from `start` on, the last as a whole word or as a prefix. */
  ghost predicate OccursAt(tokens: seq<string>, query: seq<string>, prefix: bool, start: nat) {
    && query != [] && start + |query| <= |tokens|
    && (forall j :: 0 <= j < |query| - 1 ==> tokens[start + j] == query[j])
    && var last := |query| - 1;
       if prefix then query[last] <= tokens[start + last] else query[last] == tokens[start + last]
  }

  /** The starts are found in order, each once. */
  lemma {:induction false} StartsAscend(tokens: seq<string>, query: seq<string>, prefix: bool, from: nat)
    ensures
      var starts := Starts(tokens, query, prefix, from);
      AscendFrom(starts, from)
    decreases |tokens| - from
  {
    if query != [] && from + |query| <= |tokens| {
      var (here, next) := (StartsHere(tokens, query, prefix, from), from + 1);
      var rest := Starts(tokens, query, prefix, next);
      StartsAscend(tokens, query, prefix, next);
      assert Starts(tokens, query, prefix, from) == (if here then [from] else []) + rest;
      OneMoreAscends(rest, from, next);
    }
  }

  ghost predicate AscendFrom(starts: seq<nat>, from: nat) {
    (forall k :: 0 <= k < |starts| ==> from <= starts[k]) && forall i, j :: 0 <= i < j < |starts| ==> starts[i] < starts[j]
  }

  lemma OneMoreAscends(rest: seq<nat>, from: nat, next: nat)
    requires AscendFrom(rest, next) && next == from + 1
    ensures AscendFrom([from] + rest, from) && AscendFrom([] + rest, from)
  {
  }

  lemma {:induction false} StartsAreOccurrences(tokens: seq<string>, query: seq<string>, prefix: bool, from: nat)
    ensures forall s: nat :: s in Starts(tokens, query, prefix, from) <==> from <= s && OccursAt(tokens, query, prefix, s)
    decreases |tokens| - from
  {
    if query != [] && from + |query| <= |tokens| {
      StartsAreOccurrences(tokens, query, prefix, from + 1);
      var leading := query[..|query| - 1];
      if OccursAt(tokens, query, prefix, from) {
        assert tokens[from..from + |leading|] == leading;
      }
      if StartsHere(tokens, query, prefix, from) {
        forall j | 0 <= j < |query| - 1
          ensures tokens[from + j] == query[j]
        {
          assert tokens[from..from + |leading|][j] == leading[j];
        }
      }
    }
  }

  function Ranges(starts: seq<nat>, length: nat): (r: seq<(nat, nat)>)
    ensures |r| == |starts| && forall k :: 0 <= k < |r| ==> r[k] == (starts[k], starts[k] + length)
  {
    seq(|starts|, k requires 0 <= k < |starts| => (starts[k], starts[k] + length))
  }

  function Occurrences(leaf: Leaf, document: Document, tokenize: Tokenizer): Hits {
    var query := LeafWords(tokenize, leaf);
    map f: Field | f in Searched(leaf.fields) && Starts(document.Tokens(f), query, IsPrefix(leaf)) != []
      :: Ranges(Starts(document.Tokens(f), query, IsPrefix(leaf)), |query|)
  }

  lemma RangesHave(starts: seq<nat>, length: nat, s: nat, e: nat)
    ensures (s, e) in Ranges(starts, length) <==> s in starts && e == s + length
  {
    if s in starts {
      var k :| 0 <= k < |starts| && starts[k] == s;
      assert Ranges(starts, length)[k] == (s, s + length);
    }
  }

  /** The leaf's words stand in the field from `s` to `e`, and the field is one it names, or it names none. */
  ghost predicate IsFound(leaf: Leaf, document: Document, tokenize: Tokenizer, f: Field, s: nat, e: nat) {
    && (leaf.fields == [] || f in leaf.fields) && e == s + |LeafWords(tokenize, leaf)|
    && OccursAt(document.Tokens(f), LeafWords(tokenize, leaf), IsPrefix(leaf), s)
  }

  lemma OccurrenceIsExact(leaf: Leaf, document: Document, tokenize: Tokenizer, f: Field, s: nat, e: nat)
    ensures HasRange(Occurrences(leaf, document, tokenize), f, s, e) <==> IsFound(leaf, document, tokenize, f, s, e)
  {
    var query := LeafWords(tokenize, leaf);
    var starts := Starts(document.Tokens(f), query, IsPrefix(leaf));
    StartsAreOccurrences(document.Tokens(f), query, IsPrefix(leaf), 0);
    assert f in Occurrences(leaf, document, tokenize) <==> f in Searched(leaf.fields) && starts != [];
    RangesHave(starts, |query|, s, e);
  }

  /** A field is reported only with ranges, and these come by their starts, each once. */
  lemma {:induction false} OccurrencesAreInOrder(leaf: Leaf, document: Document, tokenize: Tokenizer, f: Field, i: nat, j: nat)
    requires f in Occurrences(leaf, document, tokenize)
    ensures
      var ranges := Occurrences(leaf, document, tokenize)[f];
      ranges != [] && (i < j < |ranges| ==> ranges[i].0 < ranges[j].0)
  {
    var query := LeafWords(tokenize, leaf);
    var starts := Starts(document.Tokens(f), query, IsPrefix(leaf));
    StartsAscend(document.Tokens(f), query, IsPrefix(leaf), 0);
    assert Occurrences(leaf, document, tokenize)[f] == Ranges(starts, |query|);
  }

  /** The reported ranges are exactly where the leaf's words stand, in the fields it names, or in any if it names none. */
  lemma OccurrencesAreExact(leaf: Leaf, document: Document, tokenize: Tokenizer)
    ensures forall f: Field, s: nat, e: nat ::
              HasRange(Occurrences(leaf, document, tokenize), f, s, e) <==> IsFound(leaf, document, tokenize, f, s, e)
  {
    forall f: Field, s: nat, e: nat
      ensures HasRange(Occurrences(leaf, document, tokenize), f, s, e) <==> IsFound(leaf, document, tokenize, f, s, e)
    {
      OccurrenceIsExact(leaf, document, tokenize, f, s, e);
    }
  }

  // ----- Queries on documents

  /** A document whose starts fit the 32 bits a packed occurrence leaves them. */
  type Indexed = d: Document | d.Fits(COLUMN) witness Document([], [], [])

  function Scoped(leaf: Leaf, scope: seq<Field>): Leaf {
    match leaf
    case Term(text, _, isPrefix) => Term(text, scope, isPrefix)
    case Phrase(words, _) => Phrase(words, scope)
  }

  /** The members of a NEAR group with the group's scope applied to each. */
  function ScopedMembers(near: Node): (r: seq<Leaf>)
    requires near.Near?
    ensures |r| == |near.members|
    ensures Builds(near) ==> forall i :: 0 <= i < |r| ==> r[i] == Scoped(near.members[i], near.scope)
  {
    if near.scope == [] then
      assert Builds(near) ==> forall m :: m in near.members ==> Scoped(m, []) == m;
      near.members
    else seq(|near.members|, i requires 0 <= i < |near.members| => Scoped(near.members[i], near.scope))
  }

  function Lengths(leaves: seq<Leaf>, tokenize: Tokenizer): (r: seq<nat>)
    ensures |r| == |leaves| && forall i :: 0 <= i < |r| ==> r[i] == |LeafWords(tokenize, leaves[i])|
  {
    seq(|leaves|, i requires 0 <= i < |leaves| => |LeafWords(tokenize, leaves[i])|)
  }

  lemma OccurrencesStart(leaf: Leaf, document: Document, tokenize: Tokenizer, f: Field, s: nat)
    ensures StartsIn(Occurrences(leaf, document, tokenize), f, s) <==>
            InScope(leaf.fields, f) && OccursAt(document.Tokens(f), LeafWords(tokenize, leaf), IsPrefix(leaf), s)
  {
    var hits, query := Occurrences(leaf, document, tokenize), LeafWords(tokenize, leaf);
    if StartsIn(hits, f, s) {
      var r: (nat, nat) :| r in hits[f] && r.0 == s;
      OccurrenceIsExact(leaf, document, tokenize, f, r.0, r.1);
    }
    OccurrenceIsExact(leaf, document, tokenize, f, s, s + |query|);
    assert HasRange(hits, f, s, s + |query|) ==> StartsIn(hits, f, s) by {
      assert (s, s + |query|).0 == s;
    }
  }

  lemma OccurrencesPack(leaf: Leaf, document: Indexed, tokenize: Tokenizer)
    ensures Packable(Occurrences(leaf, document, tokenize))
  {
    var hits := Occurrences(leaf, document, tokenize);
    forall f: Field, r: (nat, nat) | f in hits && r in hits[f]
      ensures r.0 < COLUMN
    {
      assert StartsIn(hits, f, r.0);
      OccurrencesStart(leaf, document, tokenize, f, r.0);
    }
  }

  function Found(leaves: seq<Leaf>, document: Indexed, tokenize: Tokenizer): (r: seq<Hits>)
    ensures |r| == |leaves| && AllPackable(r)
    ensures forall i :: 0 <= i < |r| ==> r[i] == Occurrences(leaves[i], document, tokenize)
  {
    assert forall i :: 0 <= i < |leaves| ==> Packable(Occurrences(leaves[i], document, tokenize)) by {
      forall i | 0 <= i < |leaves| {
        OccurrencesPack(leaves[i], document, tokenize);
      }
    }
    seq(|leaves|, i requires 0 <= i < |leaves| => Occurrences(leaves[i], document, tokenize))
  }

  ghost function NearOccurrencesOf(near: Node, document: Indexed, tokenize: Tokenizer): (r: seq<Hits>)
    requires near.Near?
    ensures |r| == |near.members|
  {
    var leaves := ScopedMembers(near);
    NearHitsOf(Found(leaves, document, tokenize), Lengths(leaves, tokenize), near.distance)
  }

  ghost predicate LeafHolds(node: Node, document: Indexed, tokenize: Tokenizer) {
    match node
    case Lone(leaf) =>
      exists f :: f in Searched(leaf.fields)
                  && Starts(document.Tokens(f), LeafWords(tokenize, leaf), IsPrefix(leaf)) != []
    case Near(_, _, _) => AnyHit(NearOccurrencesOf(node, document, tokenize))
    case _ => false
  }

  /** Whether a document satisfies a query, which is taken as given and never normalized. */
  ghost predicate Satisfies(node: Node, document: Indexed, tokenize: Tokenizer) {
    Holds(node, n => LeafHolds(n, document, tokenize))
  }

  method NearOccurrences(near: Node, document: Indexed, tokenize: Tokenizer) returns (r: seq<Hits>)
    requires near.Near?
    ensures r == NearOccurrencesOf(near, document, tokenize)
  {
    var leaves := ScopedMembers(near);
    r := ComputeNearHits(Found(leaves, document, tokenize), Lengths(leaves, tokenize), near.distance);
  }

  method MatchesDocument(node: Node, document: Indexed, tokenize: Tokenizer) returns (r: bool)
    ensures r == Satisfies(node, document, tokenize)
    decreases node
  {
    ghost var leaf := (n: Node) => LeafHolds(n, document, tokenize);
    match node
    case Not(x) =>
      var inner := MatchesDocument(x, document, tokenize);
      return !inner;
    case And(operands) =>
      for i := 0 to |operands|
        invariant HoldsAll(operands, leaf) == HoldsAll(operands[i..], leaf)
      {
        var one := MatchesDocument(operands[i], document, tokenize);
        if !one {
          return false;
        }
      }
      return true;
    case Or(operands) =>
      for i := 0 to |operands|
        invariant HoldsAny(operands, leaf) == HoldsAny(operands[i..], leaf)
      {
        var one := MatchesDocument(operands[i], document, tokenize);
        if one {
          return true;
        }
      }
      return false;
    case Near(_, _, _) =>
      var hits := NearOccurrences(node, document, tokenize);
      return AnyHit(hits);
    case Lone(term) =>
      var query := LeafWords(tokenize, term);
      return exists f :: f in Searched(term.fields) && Starts(document.Tokens(f), query, IsPrefix(term)) != [];
  }

  // ----- What a query means

  /** The words stand somewhere in the field, the last as a whole word or as the beginning of one. */
  ghost predicate StandInField(words: seq<string>, isPrefix: bool, document: Document, f: Field) {
    match f
    case Title => exists s: nat :: OccursAt(document.title, words, isPrefix, s)
    case Abstract => exists s: nat :: OccursAt(document.abstractText, words, isPrefix, s)
    case Body => exists s: nat :: OccursAt(document.body, words, isPrefix, s)
  }

  lemma FieldIsSearched(words: seq<string>, isPrefix: bool, document: Document, f: Field)
    ensures StandInField(words, isPrefix, document, f) <==> Starts(document.Tokens(f), words, isPrefix) != []
  {
    var starts := Starts(document.Tokens(f), words, isPrefix);
    StartsAreOccurrences(document.Tokens(f), words, isPrefix, 0);
    if starts != [] {
      assert starts[0] in starts;
    }
    assert forall s: nat :: OccursAt(document.Tokens(f), words, isPrefix, s) ==> s in starts;
  }

  /** The words stand in one of the fields, or in any when there are none. */
  ghost predicate StandSomewhere(words: seq<string>, isPrefix: bool, document: Document, fields: seq<Field>) {
    exists f :: (fields == [] || f in fields) && StandInField(words, isPrefix, document, f)
  }

  lemma LeafStands(leaf: Leaf, words: seq<string>, isPrefix: bool, fields: seq<Field>, document: Indexed, tokenize: Tokenizer)
    requires LeafWords(tokenize, leaf) == words && IsPrefix(leaf) == isPrefix && leaf.fields == fields
    ensures Satisfies(Lone(leaf), document, tokenize) == StandSomewhere(words, isPrefix, document, fields)
  {
    if Satisfies(Lone(leaf), document, tokenize) {
      var f :| f in Searched(fields) && Starts(document.Tokens(f), words, isPrefix) != [];
      FieldIsSearched(words, isPrefix, document, f);
    }
    if f :| (fields == [] || f in fields) && StandInField(words, isPrefix, document, f) {
      FieldIsSearched(words, isPrefix, document, f);
      assert f in Searched(fields);
    }
  }

  /** A word is found where its tokens stand, in a field it names, or in any when it names none. */
  lemma TermHolds(text: string, fields: seq<Field>, isPrefix: bool, document: Indexed, tokenize: Tokenizer)
    ensures Satisfies(Lone(Term(text, fields, isPrefix)), document, tokenize)
            == StandSomewhere(tokenize(text), isPrefix, document, fields)
  {
    LeafStands(Term(text, fields, isPrefix), tokenize(text), isPrefix, fields, document, tokenize);
  }

  /** A phrase is found where the tokens of its words stand, all of them whole. */
  lemma PhraseHolds(words: seq<string>, fields: seq<Field>, document: Indexed, tokenize: Tokenizer)
    ensures Satisfies(Lone(Phrase(words, fields)), document, tokenize)
            == StandSomewhere(tokenize(Joined(words)), false, document, fields)
  {
    LeafStands(Phrase(words, fields), tokenize(Joined(words)), false, fields, document, tokenize);
  }

  /** Single spaces stand between the words, and nothing else is added. */
  lemma {:induction false} JoinedConcat(words: seq<string>, more: seq<string>)
    ensures Joined([]) == "" && forall word :: Joined([word]) == word
    ensures words != [] && more != [] ==> Joined(words + more) == Joined(words) + " " + Joined(more)
  {
    if |words| == 1 {
      assert (words + more)[1..] == more;
    } else if |words| > 1 {
      JoinedConcat(words[1..], more);
      assert (words + more)[1..] == words[1..] + more;
    }
  }

  /** A Not, an And and an Or mean what they say. */
  lemma TreeHolds(node: Node, document: Indexed, tokenize: Tokenizer)
    ensures match node
            case Not(x) => Satisfies(node, document, tokenize) <==> !Satisfies(x, document, tokenize)
            case And(operands) =>
              Satisfies(node, document, tokenize) <==> forall x :: x in operands ==> Satisfies(x, document, tokenize)
            case Or(operands) =>
              Satisfies(node, document, tokenize) <==> exists x :: x in operands && Satisfies(x, document, tokenize)
            case _ => true
  {
    var leaf := (n: Node) => LeafHolds(n, document, tokenize);
    match node
    case And(operands) => AllHold(operands, leaf);
    case Or(operands) => AnyHolds(operands, leaf);
    case _ =>
  }

  lemma {:induction false} AllHold(nodes: seq<Node>, leaf: Node -> bool)
    ensures HoldsAll(nodes, leaf) <==> forall x :: x in nodes ==> Holds(x, leaf)
  {
    if nodes != [] {
      AllHold(nodes[1..], leaf);
      assert nodes[0] in nodes;
      assert forall x :: x in nodes <==> x == nodes[0] || x in nodes[1..];
    }
  }

  lemma {:induction false} AnyHolds(nodes: seq<Node>, leaf: Node -> bool)
    ensures HoldsAny(nodes, leaf) <==> exists x :: x in nodes && Holds(x, leaf)
  {
    if nodes != [] {
      AnyHolds(nodes[1..], leaf);
      assert nodes[0] in nodes;
      assert forall x :: x in nodes <==> x == nodes[0] || x in nodes[1..];
    }
  }

  // ----- What a query looks at

  /** The leaf or group names fields, and none but these. */
  function Within(fields: set<Field>): Node -> bool {
    (node: Node) =>
      match node
      case Lone(leaf) => leaf.fields != [] && forall f :: f in leaf.fields ==> f in fields
      case Near(_, _, scope) => scope != [] && forall f :: f in scope ==> f in fields
      case _ => true
  }

  ghost predicate AgreeOn(fields: set<Field>, a: Document, b: Document) {
    && (Title in fields ==> a.title == b.title) && (Abstract in fields ==> a.abstractText == b.abstractText)
    && (Body in fields ==> a.body == b.body)
  }

  lemma SameOccurrences(leaf: Leaf, fields: set<Field>, a: Document, b: Document, tokenize: Tokenizer)
    requires AgreeOn(fields, a, b) && leaf.fields != [] && forall f :: f in leaf.fields ==> f in fields
    ensures Occurrences(leaf, a, tokenize) == Occurrences(leaf, b, tokenize)
  {
    assert forall f :: f in leaf.fields ==> a.Tokens(f) == b.Tokens(f);
  }

  lemma SameLeafHolds(node: Node, fields: set<Field>, a: Indexed, b: Indexed, tokenize: Tokenizer)
    requires AgreeOn(fields, a, b) && Within(fields)(node) && Builds(node) && (node.Lone? || node.Near?)
    ensures LeafHolds(node, a, tokenize) == LeafHolds(node, b, tokenize)
  {
    match node
    case Lone(leaf) =>
      assert forall f :: f in leaf.fields ==> a.Tokens(f) == b.Tokens(f);
    case Near(members, distance, scope) =>
      var leaves := ScopedMembers(node);
      forall i | 0 <= i < |leaves|
        ensures Occurrences(leaves[i], a, tokenize) == Occurrences(leaves[i], b, tokenize)
      {
        SameOccurrences(leaves[i], fields, a, b, tokenize);
      }
      assert Found(leaves, a, tokenize) == Found(leaves, b, tokenize);
  }

  /** Documents that agree on the fields a query names get the same verdict. */
  lemma {:induction false} SameFieldsSameVerdict(node: Node, fields: set<Field>, a: Indexed, b: Indexed, tokenize: Tokenizer)
    requires AgreeOn(fields, a, b) && Builds(node) && Consists(node, true, Within(fields))
    ensures Satisfies(node, a, tokenize) == Satisfies(node, b, tokenize)
    decreases node
  {
    TreeHolds(node, a, tokenize);
    TreeHolds(node, b, tokenize);
    match node
    case Not(x) => SameFieldsSameVerdict(x, fields, a, b, tokenize);
    case And(operands) =>
      forall x | x in operands {
        SameFieldsSameVerdict(x, fields, a, b, tokenize);
      }
    case Or(operands) =>
      forall x | x in operands {
        SameFieldsSameVerdict(x, fields, a, b, tokenize);
      }
    case _ => SameLeafHolds(node, fields, a, b, tokenize);
  }

  // ----- What a NEAR group means

  ghost predicate AllOccurAt(leaves: seq<Leaf>, tokens: seq<string>, tokenize: Tokenizer, starts: seq<nat>) {
    && |starts| == |leaves|
    && forall j :: 0 <= j < |leaves| ==> OccursAt(tokens, LeafWords(tokenize, leaves[j]), IsPrefix(leaves[j]), starts[j])
  }

  /** The words of every chosen member stand in `field` at `starts`, none ending more than `distance`
      tokens before the member that starts last. */
  ghost predicate StandNear(leaves: seq<Leaf>, distance: nat, document: Document, tokenize: Tokenizer,
                            field: Field, starts: seq<nat>) {
    && AllOccurAt(leaves, document.Tokens(field), tokenize, starts)
    && exists m :: 0 <= m < |starts| && CloseTo(starts, Lengths(leaves, tokenize), distance, starts[m])
  }

  /** The members that have a token. */
  function KeptMembers(near: Node, tokenize: Tokenizer): (r: seq<Leaf>)
    requires near.Near?
    ensures |r| == |Spanning(Lengths(ScopedMembers(near), tokenize))|
    ensures Builds(near) ==> forall j :: 0 <= j < |r| ==> r[j].fields == near.scope
  {
    var leaves := ScopedMembers(near);
    Select(leaves, Spanning(Lengths(leaves, tokenize)))
  }

  /** A group without the members that have no token: nothing when none is left, the member itself when
      one is, and otherwise members standing near each other in one field of the group's scope. */
  ghost predicate KeptHolds(near: Node, document: Document, tokenize: Tokenizer)
    requires near.Near?
  {
    var kept := KeptMembers(near, tokenize);
    if kept == [] then false
    else if |kept| == 1 then
      exists f, s: nat :: InScope(near.scope, f)
                     && OccursAt(document.Tokens(f), LeafWords(tokenize, kept[0]), IsPrefix(kept[0]), s)
    else exists f, starts :: InScope(near.scope, f)
                             && StandNear(kept, near.distance, document, tokenize, f, starts)
  }

  lemma LoneHolds(leaf: Leaf, document: Indexed, tokenize: Tokenizer)
    ensures Occurrences(leaf, document, tokenize) != map[] <==>
            exists f, s: nat :: InScope(leaf.fields, f)
                           && OccursAt(document.Tokens(f), LeafWords(tokenize, leaf), IsPrefix(leaf), s)
    ensures LeafHolds(Lone(leaf), document, tokenize) <==> Occurrences(leaf, document, tokenize) != map[]
  {
    var hits, query := Occurrences(leaf, document, tokenize), LeafWords(tokenize, leaf);
    forall f: Field {
      StartsAreOccurrences(document.Tokens(f), query, IsPrefix(leaf), 0);
    }
    assert hits != map[] <==> exists f :: f in hits;
    if f: Field :| f in hits {
      var s := Starts(document.Tokens(f), query, IsPrefix(leaf))[0];
      assert s in Starts(document.Tokens(f), query, IsPrefix(leaf));
      assert OccursAt(document.Tokens(f), query, IsPrefix(leaf), s);
    }
    if f: Field, s: nat :| InScope(leaf.fields, f) && OccursAt(document.Tokens(f), query, IsPrefix(leaf), s) {
      assert s in Starts(document.Tokens(f), query, IsPrefix(leaf));
      assert f in hits;
    }
    if LeafHolds(Lone(leaf), document, tokenize) {
      var f: Field :| f in Searched(leaf.fields) && Starts(document.Tokens(f), query, IsPrefix(leaf)) != [];
      assert f in hits;
    }
  }

  lemma KeptStart(near: Node, document: Indexed, tokenize: Tokenizer, j: nat, f: Field, s: nat)
    requires near.Near? && Builds(near) && j < |KeptMembers(near, tokenize)|
    ensures
      var leaf := KeptMembers(near, tokenize)[j];
      StartsIn(Found(KeptMembers(near, tokenize), document, tokenize)[j], f, s) <==>
      InScope(near.scope, f) && OccursAt(document.Tokens(f), LeafWords(tokenize, leaf), IsPrefix(leaf), s)
  {
    OccurrencesStart(KeptMembers(near, tokenize)[j], document, tokenize, f, s);
  }

  lemma KeptFit(near: Node, document: Indexed, tokenize: Tokenizer, size: nat)
    requires near.Near? && Builds(near) && document.Fits(size)
    ensures FitsIn(Found(KeptMembers(near, tokenize), document, tokenize), Lengths(KeptMembers(near, tokenize), tokenize), size)
  {
    var some := Found(KeptMembers(near, tokenize), document, tokenize);
    forall j: nat, f: Field, s: nat | j < |some| && StartsIn(some[j], f, s)
      ensures s + Lengths(KeptMembers(near, tokenize), tokenize)[j] <= size
    {
      KeptStart(near, document, tokenize, j, f, s);
    }
  }

  lemma KeptStarts(near: Node, document: Indexed, tokenize: Tokenizer, f: Field, starts: seq<nat>)
    requires near.Near? && Builds(near) && KeptMembers(near, tokenize) != []
    ensures AllStartIn(Found(KeptMembers(near, tokenize), document, tokenize), f, starts) <==>
            InScope(near.scope, f) && AllOccurAt(KeptMembers(near, tokenize), document.Tokens(f), tokenize, starts)
  {
    if |starts| == |KeptMembers(near, tokenize)| {
      forall j: nat | j < |starts| {
        KeptStart(near, document, tokenize, j, f, starts[j]);
      }
      KeptStart(near, document, tokenize, 0, f, starts[0]);
    }
  }

  /** Which occurrences decide a group, with the dropped members left out. */
  lemma KeptDecide(near: Node, document: Indexed, tokenize: Tokenizer)
    requires near.Near?
    ensures
      var kept := KeptMembers(near, tokenize);
      var some := Found(kept, document, tokenize);
      LeafHolds(near, document, tokenize) <==>
      if kept == [] then false
      else if |kept| == 1 then AnyHit(some)
      else AnyHit(Trimmed(some, Lengths(kept, tokenize), near.distance))
  {
    var leaves := ScopedMembers(near);
    var found, lengths := Found(leaves, document, tokenize), Lengths(leaves, tokenize);
    var spanning := Spanning(lengths);
    var kept := KeptMembers(near, tokenize);
    assert Select(found, spanning) == Found(kept, document, tokenize);
    assert Select(lengths, spanning) == Lengths(kept, tokenize);
    var parts := if |kept| > 1 then Trimmed(Select(found, spanning), Select(lengths, spanning), near.distance)
                 else Select(found, spanning);
    SpreadIsEmpty(|found|, spanning, parts);
  }

  lemma NearSomewhere(near: Node, document: Indexed, tokenize: Tokenizer)
    requires near.Near? && Builds(near) && KeptMembers(near, tokenize) != []
    ensures
      var kept := KeptMembers(near, tokenize);
      (exists f, starts :: NearInField(Found(kept, document, tokenize), Lengths(kept, tokenize), near.distance, f, starts)) <==>
      exists f, starts :: InScope(near.scope, f) && StandNear(kept, near.distance, document, tokenize, f, starts)
  {
    var kept := KeptMembers(near, tokenize);
    var some, lengths := Found(kept, document, tokenize), Lengths(kept, tokenize);
    if f: Field, starts: seq<nat> :| NearInField(some, lengths, near.distance, f, starts) {
      KeptStarts(near, document, tokenize, f, starts);
      assert StandNear(kept, near.distance, document, tokenize, f, starts);
    }
    if f: Field, starts: seq<nat> :|
      InScope(near.scope, f) && StandNear(kept, near.distance, document, tokenize, f, starts) {
      KeptStarts(near, document, tokenize, f, starts);
      assert NearInField(some, lengths, near.distance, f, starts);
    }
  }

  lemma SeveralAreDecided(near: Node, document: Indexed, tokenize: Tokenizer, size: nat)
    requires near.Near? && Builds(near) && |KeptMembers(near, tokenize)| > 1
    requires document.Fits(size) && size + near.distance < COLUMN
    ensures
      var kept := KeptMembers(near, tokenize);
      AnyHit(Trimmed(Found(kept, document, tokenize), Lengths(kept, tokenize), near.distance)) <==>
      exists f, starts :: InScope(near.scope, f) && StandNear(kept, near.distance, document, tokenize, f, starts)
  {
    var kept := KeptMembers(near, tokenize);
    KeptFit(near, document, tokenize, size);
    TrimmedIsEmpty(Found(kept, document, tokenize), Lengths(kept, tokenize), near.distance, size);
    NearSomewhere(near, document, tokenize);
  }

  lemma OneIsDecided(near: Node, document: Indexed, tokenize: Tokenizer)
    requires near.Near? && Builds(near) && |KeptMembers(near, tokenize)| == 1
    ensures
      var kept := KeptMembers(near, tokenize);
      AnyHit(Found(kept, document, tokenize)) <==>
      exists f, s: nat :: InScope(near.scope, f)
                     && OccursAt(document.Tokens(f), LeafWords(tokenize, kept[0]), IsPrefix(kept[0]), s)
  {
    var kept := KeptMembers(near, tokenize);
    var some := Found(kept, document, tokenize);
    LoneHolds(kept[0], document, tokenize);
    assert AnyHit(some) <==> some[0] != map[];
  }

  /** Every member that has a token stands in the tokens, none ending more than the distance before the `m`-th starts. */
  ghost predicate NearIn(near: Node, tokens: seq<string>, tokenize: Tokenizer, starts: seq<nat>, m: nat)
    requires near.Near?
  {
    && |starts| == |near.members| && m < |starts| && LeafWords(tokenize, near.members[m]) != []
    && forall j :: 0 <= j < |starts| && LeafWords(tokenize, near.members[j]) != [] ==>
         && OccursAt(tokens, LeafWords(tokenize, near.members[j]), IsPrefix(near.members[j]), starts[j])
         && starts[m] - |LeafWords(tokenize, near.members[j])| - near.distance <= starts[j] <= starts[m]
  }

  /** The members of the group that have a token, and there is one, stand near each other in one field of its scope. */
  ghost predicate NearHolds(near: Node, document: Document, tokenize: Tokenizer)
    requires near.Near?
  {
    exists f: Field, starts: seq<nat>, m: nat ::
      InScope(near.scope, f) && NearIn(near, document.Tokens(f), tokenize, starts, m)
  }

  /** Which member the `k`-th of those kept is. */
  function KeptAt(near: Node, tokenize: Tokenizer): (r: seq<nat>)
    requires near.Near?
    ensures |r| == |KeptMembers(near, tokenize)| && forall k :: 0 <= k < |r| ==> r[k] < |near.members|
    ensures Builds(near) ==>
              forall k :: 0 <= k < |r| ==> KeptMembers(near, tokenize)[k] == Scoped(near.members[r[k]], near.scope)
    ensures Builds(near) ==> forall j :: 0 <= j < |near.members| ==> (j in r <==> LeafWords(tokenize, near.members[j]) != [])
    ensures forall i, j :: 0 <= i < j < |r| ==> r[i] < r[j]
  {
    Spanning(Lengths(ScopedMembers(near), tokenize))
  }

  /** The group's members stand where the kept ones do; where the others stand does not matter. */
  lemma KeptStand(near: Node, document: Document, tokenize: Tokenizer, f: Field, at: seq<nat>, last: nat)
    returns (starts: seq<nat>, m: nat)
    requires near.Near? && Builds(near) && KeptMembers(near, tokenize) != []
    requires AllOccurAt(KeptMembers(near, tokenize), document.Tokens(f), tokenize, at) && last < |at|
    requires CloseTo(at, Lengths(KeptMembers(near, tokenize), tokenize), near.distance, at[last])
    ensures NearIn(near, document.Tokens(f), tokenize, starts, m)
  {
    var (kept, which) := (KeptMembers(near, tokenize), KeptAt(near, tokenize));
    starts := seq(|near.members|, j requires 0 <= j < |near.members| => StartOf(which, at, j));
    m := which[last];
    StartOfIs(which, at, last);
    assert which[last] in which;
    forall j | 0 <= j < |starts| && LeafWords(tokenize, near.members[j]) != []
      ensures OccursAt(document.Tokens(f), LeafWords(tokenize, near.members[j]), IsPrefix(near.members[j]), starts[j])
      ensures starts[m] - |LeafWords(tokenize, near.members[j])| - near.distance <= starts[j] <= starts[m]
    {
      var k :| 0 <= k < |which| && which[k] == j;
      StartOfIs(which, at, k);
      MemberIsKept(near, document, tokenize, f, at, j, k);
    }
  }

  /** The `k`-th kept member stands where the group's own does. */
  lemma MemberIsKept(near: Node, document: Document, tokenize: Tokenizer, f: Field, at: seq<nat>, j: nat, k: nat)
    requires near.Near? && Builds(near) && AllOccurAt(KeptMembers(near, tokenize), document.Tokens(f), tokenize, at)
    requires k < |KeptAt(near, tokenize)| && KeptAt(near, tokenize)[k] == j
    ensures OccursAt(document.Tokens(f), LeafWords(tokenize, near.members[j]), IsPrefix(near.members[j]), at[k])
    ensures Lengths(KeptMembers(near, tokenize), tokenize)[k] == |LeafWords(tokenize, near.members[j])|
  {
    assert KeptMembers(near, tokenize)[k] == Scoped(near.members[j], near.scope);
  }

  ghost function StartOf(which: seq<nat>, at: seq<nat>, j: nat): nat
    requires |which| == |at|
  {
    if j in which then var k :| 0 <= k < |which| && which[k] == j; at[k] else 0
  }

  lemma StartOfIs(which: seq<nat>, at: seq<nat>, k: nat)
    requires |which| == |at| && k < |which| && forall i, j :: 0 <= i < j < |which| ==> which[i] < which[j]
    ensures StartOf(which, at, which[k]) == at[k]
  {
  }

  /** Where all the members stand, the kept ones do. */
  lemma MembersStand(near: Node, document: Document, tokenize: Tokenizer, f: Field, starts: seq<nat>, m: nat)
    returns (at: seq<nat>, last: nat)
    requires near.Near? && Builds(near) && NearIn(near, document.Tokens(f), tokenize, starts, m)
    ensures AllOccurAt(KeptMembers(near, tokenize), document.Tokens(f), tokenize, at) && last < |at|
    ensures CloseTo(at, Lengths(KeptMembers(near, tokenize), tokenize), near.distance, at[last])
  {
    var (kept, which) := (KeptMembers(near, tokenize), KeptAt(near, tokenize));
    at := seq(|which|, k requires 0 <= k < |which| => starts[which[k]]);
    last :| 0 <= last < |which| && which[last] == m;
    forall k | 0 <= k < |kept|
      ensures OccursAt(document.Tokens(f), LeafWords(tokenize, kept[k]), IsPrefix(kept[k]), at[k])
      ensures at[last] - |LeafWords(tokenize, kept[k])| - near.distance <= at[k] <= at[last]
    {
      assert which[k] in which && kept[k] == Scoped(near.members[which[k]], near.scope);
    }
  }

  lemma KeptHoldsAsDeclared(near: Node, document: Document, tokenize: Tokenizer)
    requires near.Near? && Builds(near)
    ensures KeptHolds(near, document, tokenize) <==> NearHolds(near, document, tokenize)
  {
    var kept := KeptMembers(near, tokenize);
    if KeptHolds(near, document, tokenize) {
      if |kept| == 1 {
        var f: Field, s: nat :| InScope(near.scope, f) && OccursAt(document.Tokens(f), LeafWords(tokenize, kept[0]), IsPrefix(kept[0]), s);
        var starts, m := KeptStand(near, document, tokenize, f, [s], 0);
      } else {
        var f: Field, at: seq<nat> :| InScope(near.scope, f) && StandNear(kept, near.distance, document, tokenize, f, at);
        var last :| 0 <= last < |at| && CloseTo(at, Lengths(kept, tokenize), near.distance, at[last]);
        var starts, m := KeptStand(near, document, tokenize, f, at, last);
      }
    }
    if NearHolds(near, document, tokenize) {
      var f: Field, starts: seq<nat>, m: nat :| InScope(near.scope, f) && NearIn(near, document.Tokens(f), tokenize, starts, m);
      var at, last := MembersStand(near, document, tokenize, f, starts, m);
      if |kept| == 1 {
        assert OccursAt(document.Tokens(f), LeafWords(tokenize, kept[0]), IsPrefix(kept[0]), at[0]);
      } else {
        assert StandNear(kept, near.distance, document, tokenize, f, at);
      }
    }
  }

  /** On documents whose fields end before a match could reach into the next, the walk decides a NEAR
      group exactly as documented. */
  lemma NearIsDecided(near: Node, document: Indexed, tokenize: Tokenizer, size: nat)
    requires near.Near? && Builds(near)
    requires document.Fits(size) && size + near.distance < COLUMN
    ensures LeafHolds(near, document, tokenize) <==> NearHolds(near, document, tokenize)
  {
    KeptHoldsAsDeclared(near, document, tokenize);
    KeptDecide(near, document, tokenize);
    if |KeptMembers(near, tokenize)| == 1 {
      OneIsDecided(near, document, tokenize);
    } else if |KeptMembers(near, tokenize)| > 1 {
      SeveralAreDecided(near, document, tokenize, size);
    }
  }
}
