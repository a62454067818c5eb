/** Where in a query an error points, and queries that need a word that is not negated (search/parser.py). */
module QueryFaults {
  import opened Query
  import opened CompileFts5
  import opened QueryScanner
  import opened Parser
  import Evaluate

  // ----- Every error points at what it is about

  lemma {:induction false} LexingIsSound(source: Source, defaults: Fields, i: nat)
    requires i <= |source.text|
    ensures forall x :: x in Lexing(source.Steps(defaults), i).all ==> source.Legible(x)
    ensures
      var fault := Lexing(source.Steps(defaults), i).fault;
      fault.Some? ==> source.Points(fault.value)
    decreases |source.text| - i
  {
    var steps := source.Steps(defaults);
    source.NextIsSound(i, defaults);
    assert steps[i] == source.Next(i, defaults);
    if steps[i].Read? && steps[i].value.0.symbol != End {
      LexingIsSound(source, defaults, steps[i].value.1);
    }
  }

  lemma LexemeLies(source: Source, defaults: Fields, lexed: Lexed, starts: seq<nat>, k: nat)
    requires Scans(source.Steps(defaults), lexed, starts, k) && lexed.fault.None?
    ensures source.Lies(starts[k], lexed.all[k], if k + 1 < |lexed.all| then starts[k + 1] else |source.text|)
  {
    assert source.Steps(defaults)[starts[k]] == source.Next(starts[k], defaults);
    source.NextIsSound(starts[k], defaults);
  }

  /** Every character of a query that scans is a space or part of exactly one lexeme. */
  lemma LexemesTile(source: Source, defaults: Fields, lexed: Lexed, starts: seq<nat>)
    requires lexed == source.Lexemes(defaults) && lexed.fault.None? && starts == Starts(source.Steps(defaults), 0)
    ensures |starts| == |lexed.all| && starts[0] == 0
    ensures forall k :: 0 <= k < |lexed.all| ==>
              source.Lies(starts[k], lexed.all[k], if k + 1 < |lexed.all| then starts[k + 1] else |source.text|)
  {
    var steps := source.Steps(defaults);
    LexingScans(steps, 0);
    assert Scans(steps, lexed, starts, 0);
    forall k | 0 <= k < |lexed.all|
      ensures source.Lies(starts[k], lexed.all[k], if k + 1 < |lexed.all| then starts[k + 1] else |source.text|)
    {
      assert Scans(steps, lexed, starts, k);
      LexemeLies(source, defaults, lexed, starts, k);
    }
  }

  /** The position and the text an error reports. */
  function PlaceOf(error: Error): (nat, string) {
    match error
    case Empty => (0, "")
    case Unmatched(closing) => (closing.position, ")")
    case NeverClosed(opening) => (opening.position, "(")
    case TooDeep(opening) => (opening.position, "(")
    case ExpectedAfter(operator) => (operator.position, operator.text)
    case ExpectedBefore(lexeme) => (lexeme.position, lexeme.text)
    case Unreadable(fault) => (fault.position, fault.token)
  }

  ghost predicate Located(source: Source, error: Error) {
    source.Says(PlaceOf(error).0, PlaceOf(error).1)
  }

  lemma BlamedIsLocated(source: Source, all: seq<Lexeme>, error: Error)
    requires all != [] && Blames(all, error) && forall x :: x in all ==> source.Legible(x)
    ensures Located(source, error)
  {
  }

  /** A query is refused with the text that stands at the reported position. */
  lemma ErrorsAreLocated(source: Source, defaults: Fields)
    requires QueryOf(source, defaults).Refused?
    ensures Located(source, QueryOf(source, defaults).error)
  {
    var lexed, error := source.Lexemes(defaults), QueryOf(source, defaults).error;
    LexingIsSound(source, defaults, 0);
    ParseBlames(lexed.all);
    if !error.Unreadable? {
      BlamedIsLocated(source, lexed.all, error);
    }
  }

  lemma {:induction false} ConsistsBuilds(node: Node, nots: bool, p: Node -> bool)
    requires Consists(node, nots, p) && forall x :: p(x) ==> Builds(x)
    ensures Builds(node)
  {
    match node
    case Not(x) => ConsistsBuilds(x, nots, p);
    case And(operands) =>
      forall x | x in operands ensures Builds(x) { ConsistsBuilds(x, nots, p); }
    case Or(operands) =>
      forall x | x in operands ensures Builds(x) { ConsistsBuilds(x, nots, p); }
    case _ =>
  }

  lemma TreeConsists(source: Source, defaults: Fields, nots: bool, p: Node -> bool)
    requires QueryOf(source, defaults).Parsed?
    requires forall x :: x in source.Lexemes(defaults).all ==> Fair(x.symbol, nots, p)
    ensures Consists(QueryOf(source, defaults).value, nots, p)
  {
    var all := source.Lexemes(defaults).all;
    ParsedConsists(all, nots, p);
    NormalConsists(Parse(all).value, nots, p);
  }

  /** Whatever the text, a parsed tree is one the constructors accept, and in canonical form. */
  lemma ParsedTreesBuild(source: Source, defaults: Fields)
    requires QueryOf(source, defaults).Parsed?
    ensures Builds(QueryOf(source, defaults).value) && InNormalForm(QueryOf(source, defaults).value)
  {
    var all := source.Lexemes(defaults).all;
    LexingIsSound(source, defaults, 0);
    assert forall x :: x in all ==> Fair(x.symbol, true, Builds);
    TreeConsists(source, defaults, true, Builds);
    ConsistsBuilds(QueryOf(source, defaults).value, true, Builds);
    ParsedConsists(all, true, Builds);
    ConsistsBuilds(Parse(all).value, true, Builds);
    NormalIsNormalForm(Parse(all).value);
  }

  // ----- Scanning again without default fields gives the same lexemes but for their fields

  function BareNode(node: Node): Node {
    match node
    case Lone(leaf) => Lone(WithScope(leaf, []))
    case Near(members, distance, _) => Near(members, distance, [])
    case _ => node
  }

  function BareLexeme(lexeme: Lexeme): Lexeme {
    if lexeme.symbol.Operand? then lexeme.(symbol := Operand(BareNode(lexeme.symbol.node))) else lexeme
  }

  ghost predicate SameStep(a: Step, b: Step) {
    match (a, b)
    case (Broken(f), Broken(g)) => f == g
    case (Read((x, n)), Read((y, m))) => n == m && BareLexeme(x) == BareLexeme(y)
    case _ => false
  }

  lemma GroupIgnoresScope(source: Source, start: nat, opening: nat, f: Fields, g: Fields)
    requires start <= opening < |source.text| && source.text[opening] == '('
    ensures SameStep(source.NearGroup(start, opening, f), source.NearGroup(start, opening, g))
  {
  }

  lemma WordIgnoresScope(source: Source, start: nat, end: nat, f: Fields, g: Fields)
    requires start < end <= |source.text|
    ensures SameStep(source.WordOrGroup(start, start, end, f), source.WordOrGroup(start, start, end, g))
  {
    OperandIgnoresScope(source, start, end, f, g);
    if source.Says(end, "(") {
      GroupIgnoresScope(source, start, end, f, g);
    }
  }

  lemma OperandIgnoresScope(source: Source, start: nat, end: nat, f: Fields, g: Fields)
    requires start < end <= |source.text|
    ensures SameStep(source.OperandWord(start, start, end, f), source.OperandWord(start, start, end, g))
  {
  }

  lemma NextIgnoresScope(source: Source, i: nat, f: Fields, g: Fields)
    requires i <= |source.text|
    ensures SameStep(source.Next(i, f), source.Next(i, g))
  {
    var start := source.SkipSpace(i);
    if start < |source.text| && source.SymbolAt(start).None? && source.text[start] != '"' {
      WordIgnoresScope(source, start, source.WordEnd(start, false), f, g);
    }
  }

  lemma {:induction false} LexemesIgnoreScope(source: Source, i: nat, f: Fields, g: Fields)
    requires i <= |source.text|
    ensures
      var a, b := Lexing(source.Steps(f), i), Lexing(source.Steps(g), i);
      && a.fault == b.fault && |a.all| == |b.all|
      && forall k :: 0 <= k < |a.all| ==> BareLexeme(a.all[k]) == BareLexeme(b.all[k])
    decreases |source.text| - i
  {
    var a, b := source.Steps(f), source.Steps(g);
    assert a[i] == source.Next(i, f) && b[i] == source.Next(i, g);
    NextIgnoresScope(source, i, f, g);
    if a[i].Read? && a[i].value.0.symbol != End {
      LexemesIgnoreScope(source, a[i].value.1, f, g);
    }
  }

  // ----- The first lexeme of some kind

  /** The first lexeme that is wanted, or the end. */
  function FirstOf(all: seq<Lexeme>, wanted: Symbol -> bool): (r: Lexeme)
    requires all != []
    ensures r in all
  {
    if |all| == 1 || wanted(all[0].symbol) then all[0] else FirstOf(all[1..], wanted)
  }

  lemma {:induction false} FirstOfIsFirst(all: seq<Lexeme>, wanted: Symbol -> bool)
    requires all != [] && exists k :: 0 <= k < |all| && wanted(all[k].symbol)
    ensures exists k ::
              && 0 <= k < |all| && wanted(all[k].symbol) && FirstOf(all, wanted) == all[k]
              && forall j :: 0 <= j < k ==> !wanted(all[j].symbol)
  {
    if |all| > 1 && !wanted(all[0].symbol) {
      var k :| 0 <= k < |all| && wanted(all[k].symbol);
      assert all[1..][k - 1] == all[k];
      FirstOfIsFirst(all[1..], wanted);
      var m :| && 0 <= m < |all[1..]| && wanted(all[1..][m].symbol) && FirstOf(all[1..], wanted) == all[1..][m]
               && forall j :: 0 <= j < m ==> !wanted(all[1..][j].symbol);
      assert all[m + 1] == all[1..][m];
      assert forall j :: 0 < j < m + 1 ==> all[j] == all[1..][j - 1];
    }
  }

  /** Scanning a query again, which its parse has already scanned, for the first lexeme of some kind. */
  method Locate(source: Source, wanted: Symbol -> bool) returns (lexeme: Lexeme)
    requires source.Lexemes([]).fault.None?
    ensures lexeme == FirstOf(source.Lexemes([]).all, wanted)
  {
    var scanner := new Scanner(source, []);
    ghost var steps, at := scanner.steps, 0;
    var next := scanner.Next();
    lexeme := next.value;
    while lexeme.symbol != End && !wanted(lexeme.symbol)
      invariant scanner.Valid() && scanner.steps == steps && scanner.source == source && at < |steps|
      invariant steps[at].Read? && lexeme == steps[at].value.0
      invariant lexeme.symbol != End ==> scanner.index == steps[at].value.1
      invariant Lexing(steps, at).fault.None?
      invariant FirstOf(Lexing(steps, 0).all, wanted) == FirstOf(Lexing(steps, at).all, wanted)
      decreases |steps| - at
    {
      at := scanner.index;
      next := scanner.Next();
      lexeme := next.value;
    }
  }

  // ----- A ranked query needs a word that is not negated

  function IsNegation(symbol: Symbol): bool {
    symbol == NotOp
  }

  datatype Ranked = Rankable(node: Node) | Unparsed(error: Error) | Unrankable(position: nat, token: string)

  function RankedOf(source: Source, defaults: Fields): Ranked {
    match QueryOf(source, defaults)
    case Refused(error) => Unparsed(error)
    case Parsed(node, _) =>
      if IsRankable(node) then Rankable(node)
      else var negation := FirstOf(source.Lexemes([]).all, IsNegation); Unrankable(negation.position, negation.text)
  }

  lemma ParsedScans(source: Source, defaults: Fields)
    requires QueryOf(source, defaults).Parsed?
    ensures source.Lexemes(defaults).fault.None? && source.Lexemes([]).fault.None?
  {
    ParseBlames(source.Lexemes(defaults).all);
    LexemesIgnoreScope(source, 0, defaults, []);
  }

  method ParseRanked(source: Source, defaults: Fields) returns (r: Ranked)
    ensures r == RankedOf(source, defaults)
  {
    var parsed := ParseSource(source, defaults);
    if parsed.Bad? {
      return Unparsed(parsed.error);
    }
    if IsRankable(parsed.value) {
      return Rankable(parsed.value);
    }
    ParsedScans(source, defaults);
    var negation := Locate(source, IsNegation);
    return Unrankable(negation.position, negation.text);
  }

  /** The k-th lexeme is the first of its kind, and stands at `position` as `token`. */
  ghost predicate FirstAt(all: seq<Lexeme>, wanted: Symbol -> bool, k: nat, position: nat, token: string) {
    && k < |all| && wanted(all[k].symbol) && all[k].position == position && all[k].text == token
    && forall j :: 0 <= j < k ==> !wanted(all[j].symbol)
  }

  ghost predicate IgnoresScope(wanted: Symbol -> bool) {
    forall node :: wanted(Operand(node)) == wanted(Operand(BareNode(node)))
  }

  /** If a query has a lexeme of the kind, scanning it without default fields finds the first. */
  lemma FirstIsFound(source: Source, defaults: Fields, wanted: Symbol -> bool) returns (k: nat)
    requires IgnoresScope(wanted)
    requires exists x :: x in source.Lexemes(defaults).all && wanted(x.symbol)
    ensures
      var found := FirstOf(source.Lexemes([]).all, wanted);
      FirstAt(source.Lexemes(defaults).all, wanted, k, found.position, found.text)
  {
    LexemesIgnoreScope(source, 0, defaults, []);
    k := FirstAmongBare(source.Lexemes(defaults).all, source.Lexemes([]).all, wanted);
  }

  lemma {:induction false} SameButScope(all: seq<Lexeme>, bare: seq<Lexeme>, wanted: Symbol -> bool)
    requires IgnoresScope(wanted) && |all| == |bare|
    requires forall k :: 0 <= k < |all| ==> BareLexeme(all[k]) == BareLexeme(bare[k])
    ensures forall k :: 0 <= k < |all| ==>
              && wanted(all[k].symbol) == wanted(bare[k].symbol)
              && all[k].position == bare[k].position && all[k].text == bare[k].text
  {
    forall k | 0 <= k < |all|
      ensures wanted(all[k].symbol) == wanted(bare[k].symbol)
      ensures all[k].position == bare[k].position && all[k].text == bare[k].text
    {
      assert BareLexeme(all[k]) == BareLexeme(bare[k]);
    }
  }

  lemma {:induction false} FirstAmongBare(all: seq<Lexeme>, bare: seq<Lexeme>, wanted: Symbol -> bool) returns (k: nat)
    requires IgnoresScope(wanted) && |all| == |bare|
    requires forall k :: 0 <= k < |all| ==> BareLexeme(all[k]) == BareLexeme(bare[k])
    requires exists x :: x in all && wanted(x.symbol)
    ensures FirstAt(all, wanted, k, FirstOf(bare, wanted).position, FirstOf(bare, wanted).text)
  {
    SameButScope(all, bare, wanted);
    FirstOfIsFirst(bare, wanted);
    k :| 0 <= k < |bare| && wanted(bare[k].symbol) && FirstOf(bare, wanted) == bare[k]
         && forall j :: 0 <= j < k ==> !wanted(bare[j].symbol);
  }

  /** A query that parses but cannot be ranked holds a NOT, and the error points at its first. */
  lemma UnrankableIsLocated(source: Source, defaults: Fields) returns (k: nat)
    requires RankedOf(source, defaults).Unrankable?
    ensures
      var r := RankedOf(source, defaults);
      FirstAt(source.Lexemes(defaults).all, IsNegation, k, r.position, r.token) && source.Says(r.position, r.token)
  {
    var all := source.Lexemes(defaults).all;
    LexingIsSound(source, defaults, 0);
    if forall x :: x in all ==> !IsNegation(x.symbol) {
      assert forall x :: x in all ==> Fair(x.symbol, false, Builds);
      TreeConsists(source, defaults, false, Builds);
      NotFreeIsRankable(QueryOf(source, defaults).value, Builds);
    }
    k := FirstIsFound(source, defaults, IsNegation);
    assert all[k] in all;
  }

  // ----- A semantic search needs a whole word

  function MemberWords(members: seq<Leaf>): seq<string> {
    if members == [] then [] else LeafWords(members[0]) + MemberWords(members[1..])
  }

  function LeafWords(leaf: Leaf): seq<string> {
    match leaf
    case Term(text, _, isPrefix) => if isPrefix then [] else [text]
    case Phrase(words, _) => words
  }

  /** The words of a canonical tree that mean something on their own: neither negated nor prefixes. */
  function WholeWords(node: Node): seq<string>
    decreases node, 1
  {
    match node
    case Lone(leaf) => LeafWords(leaf)
    case Near(members, _, _) => MemberWords(members)
    case And(operands) => WholeWordsOf(operands)
    case Or(operands) => WholeWordsOf(operands)
    case Not(_) => []
  }

  function WholeWordsOf(nodes: seq<Node>): seq<string>
    decreases nodes, 0
  {
    if nodes == [] then [] else WholeWords(nodes[0]) + WholeWordsOf(nodes[1..])
  }

  function SemanticText(node: Node): string {
    Evaluate.Joined(WholeWords(Normal(node)))
  }

  predicate IsPrefixTerm(leaf: Leaf) {
    leaf.Term? && leaf.isPrefix
  }

  /** A prefix term, or a NEAR group of nothing else. */
  function LacksWholeWord(symbol: Symbol): bool {
    symbol.Operand? &&
    match symbol.node
    case Lone(leaf) => IsPrefixTerm(leaf)
    case Near(members, _, _) => forall m :: m in members ==> IsPrefixTerm(m)
    case _ => false
  }

  datatype Semantic = Meant(node: Node, text: string) | Unranked(fault: Ranked) | Wordless(position: nat, token: string)

  function SemanticOf(source: Source, defaults: Fields): Semantic {
    match RankedOf(source, defaults)
    case Rankable(node) =>
      var text := SemanticText(node);
      if text != "" then Meant(node, text)
      else var prefix := FirstOf(source.Lexemes([]).all, LacksWholeWord); Wordless(prefix.position, prefix.text)
    case fault => Unranked(fault)
  }

  method CollectMeaning(node: Node, words: seq<string>) returns (r: seq<string>)
    ensures r == words + WholeWords(node)
    decreases node
  {
    match node
    case Lone(leaf) => r := words + LeafWords(leaf);
    case Near(members, _, _) =>
      r := words;
      for i := 0 to |members|
        invariant r + MemberWords(members[i..]) == words + MemberWords(members)
      {
        assert members[i..][1..] == members[i + 1..];
        r := r + LeafWords(members[i]);
      }
    case Not(_) => r := words;
    case _ =>
      r := words;
      for i := 0 to |node.operands|
        invariant r + WholeWordsOf(node.operands[i..]) == words + WholeWordsOf(node.operands)
      {
        assert node.operands[i..][1..] == node.operands[i + 1..];
        r := CollectMeaning(node.operands[i], r);
      }
  }

  method TextToEmbed(node: Node) returns (text: string)
    ensures text == SemanticText(node)
  {
    var canonical := Normalize(node);
    var words := CollectMeaning(canonical, []);
    assert words == WholeWords(canonical);
    return Evaluate.Joined(words);
  }

  method ParseSemantic(source: Source, defaults: Fields) returns (r: Semantic)
    ensures r == SemanticOf(source, defaults)
  {
    var ranked := ParseRanked(source, defaults);
    if !ranked.Rankable? {
      return Unranked(ranked);
    }
    var text := TextToEmbed(ranked.node);
    if text != "" {
      return Meant(ranked.node, text);
    }
    ParsedScans(source, defaults);
    var prefix := Locate(source, LacksWholeWord);
    return Wordless(prefix.position, prefix.text);
  }

  /** A word, phrase or group that is built and has a whole word. */
  function Whole(node: Node): bool {
    (node.Lone? || node.Near?) && Builds(node) && !LacksWholeWord(Operand(node))
  }

  lemma {:induction false} MembersMean(members: seq<Leaf>, m: Leaf)
    requires m in members && LeafBuilds(m) && !IsPrefixTerm(m)
    ensures MemberWords(members) != []
  {
    if m != members[0] {
      MembersMean(members[1..], m);
    }
  }

  lemma WholeMeans(node: Node)
    requires Whole(node)
    ensures WholeWords(node) != []
  {
    if node.Near? {
      var m :| m in node.members && !IsPrefixTerm(m);
      MembersMean(node.members, m);
    }
  }

  lemma {:induction false} OneMeans(nodes: seq<Node>, x: Node)
    requires x in nodes && WholeWords(x) != []
    ensures WholeWordsOf(nodes) != []
  {
    if x != nodes[0] {
      OneMeans(nodes[1..], x);
    }
  }

  /** A tree that can be ranked and has a whole word in every leaf means something. */
  lemma {:induction false} RankedMeans(node: Node)
    requires Consists(node, true, Whole) && InNormalForm(node) && Compile(node).Some?
    ensures WholeWords(node) != []
    decreases Size(node), 1
  {
    match node
    case Or(operands) =>
      SizeOfMember(operands, 0);
      RankedMeans(operands[0]);
      OneMeans(operands, operands[0]);
    case And(operands) =>
      SplitByNot(operands);
      var x := Plain(operands)[0];
      assert x in Plain(operands);
      RankedMeans(x);
      OneMeans(operands, x);
    case _ => WholeMeans(node);
  }

  lemma {:induction false} LeavesHaveText(node: Node)
    requires Builds(node)
    ensures "" !in WholeWords(node)
    decreases node, 1
  {
    match node
    case Lone(leaf) => LeafHasText(leaf);
    case Near(members, _, _) => MembersHaveText(members);
    case And(operands) => OperandsHaveText(operands);
    case Or(operands) => OperandsHaveText(operands);
    case Not(_) =>
  }

  lemma LeafHasText(leaf: Leaf)
    requires LeafBuilds(leaf)
    ensures "" !in LeafWords(leaf)
  {
  }

  lemma {:induction false} OperandsHaveText(nodes: seq<Node>)
    requires forall x :: x in nodes ==> Builds(x)
    ensures "" !in WholeWordsOf(nodes)
    decreases nodes, 0
  {
    if nodes != [] {
      LeavesHaveText(nodes[0]);
      OperandsHaveText(nodes[1..]);
    }
  }

  lemma {:induction false} MembersHaveText(members: seq<Leaf>)
    requires forall m :: m in members ==> LeafBuilds(m)
    ensures "" !in MemberWords(members)
  {
    if members != [] {
      LeafHasText(members[0]);
      MembersHaveText(members[1..]);
    }
  }

  /** The word, phrase or group stands in the tree outside every Not. */
  ghost predicate Asserts(node: Node, inner: Node)
    decreases node
  {
    node == inner || ((node.And? || node.Or?) && exists x :: x in node.operands && Asserts(x, inner))
  }

  ghost predicate LeafUtters(leaf: Leaf, word: string) {
    match leaf
    case Term(text, _, isPrefix) => !isPrefix && text == word
    case Phrase(words, _) => word in words
  }

  /** The word is one of the node's own, whole. */
  ghost predicate Utters(node: Node, word: string) {
    match node
    case Lone(leaf) => LeafUtters(leaf, word)
    case Near(members, _, _) => exists m :: m in members && LeafUtters(m, word)
    case _ => false
  }

  lemma {:induction false} MemberWordsAre(members: seq<Leaf>, word: string)
    ensures word in MemberWords(members) <==> exists m :: m in members && LeafUtters(m, word)
  {
    if members != [] {
      var first, rest := members[0], members[1..];
      MemberWordsAre(rest, word);
      assert word in LeafWords(first) <==> LeafUtters(first, word);
      if m :| m in members && LeafUtters(m, word) {
        assert m == first || m in rest;
      }
      if m :| m in rest && LeafUtters(m, word) {
        assert m in members;
      }
    }
  }

  /** The words to embed are the whole words that stand in the tree outside every Not. */
  lemma {:induction false} WholeWordsAre(node: Node, word: string)
    ensures word in WholeWords(node) <==> exists inner :: Asserts(node, inner) && Utters(inner, word)
    decreases node, 1
  {
    match node
    case Lone(_) => assert Asserts(node, node);
    case Near(members, _, _) =>
      MemberWordsAre(members, word);
      assert Asserts(node, node);
    case Not(_) =>
    case _ =>
      OperandWordsAre(node.operands, word);
      if inner :| Asserts(node, inner) && Utters(inner, word) {
        var x :| x in node.operands && Asserts(x, inner);
      }
  }

  lemma {:induction false} OperandWordsAre(nodes: seq<Node>, word: string)
    ensures word in WholeWordsOf(nodes) <==> exists x, inner :: x in nodes && Asserts(x, inner) && Utters(inner, word)
    decreases nodes, 0
  {
    if nodes != [] {
      WholeWordsAre(nodes[0], word);
      OperandWordsAre(nodes[1..], word);
      assert nodes == [nodes[0]] + nodes[1..];
    }
  }

  lemma {:induction false} OperandWordsJoin(a: seq<Node>, b: seq<Node>)
    ensures WholeWordsOf(a + b) == WholeWordsOf(a) + WholeWordsOf(b)
  {
    if a == [] {
      assert a + b == b && WholeWordsOf(a) == [];
    } else {
      var (first, tail, both) := (a[0], a[1..], a + b);
      assert both[0] == first && both[1..] == tail + b;
      OperandWordsJoin(tail, b);
      WordsJoin(WholeWords(first), WholeWordsOf(tail), WholeWordsOf(b));
    }
  }

  lemma WordsJoin(a: seq<string>, b: seq<string>, c: seq<string>)
    ensures a + (b + c) == a + b + c
  {
  }

  /** They come in the order they are read in. */
  lemma {:induction false} WholeWordsKeepOrder(a: seq<Node>, b: seq<Node>)
    ensures WholeWords(And(a + b)) == WholeWords(And(a)) + WholeWords(And(b))
    ensures WholeWords(Or(a + b)) == WholeWords(Or(a)) + WholeWords(Or(b))
  {
    OperandWordsJoin(a, b);
  }

  /** The text to embed is empty exactly when no word is left. */
  lemma MeaningIsText(node: Node)
    requires Builds(node) && InNormalForm(node)
    ensures SemanticText(node) == "" <==> WholeWords(node) == []
  {
    NormalFormIsFixed(node);
    LeavesHaveText(node);
    var words := WholeWords(node);
    assert words != [] ==> words[0] in words;
  }

  /** Blamed is a prefix term, or a group of prefix terms only. */
  lemma {:induction false} LacksWholeWordIs(symbol: Symbol)
    ensures
      LacksWholeWord(symbol)
      <==> && symbol.Operand?
           && if symbol.node.Lone? then symbol.node.leaf.Term? && symbol.node.leaf.isPrefix
              else symbol.node.Near?
                   && forall k :: 0 <= k < |symbol.node.members| ==> symbol.node.members[k].Term? && symbol.node.members[k].isPrefix
  {
    if symbol.Operand? && symbol.node.Near? {
      var members := symbol.node.members;
      assert (forall m :: m in members ==> IsPrefixTerm(m)) <==> forall k :: 0 <= k < |members| ==> IsPrefixTerm(members[k]);
    }
  }

  /** A query that can be ranked but means nothing has a prefix term, or a group of them, and the error
      points at its first. */
  lemma WordlessIsLocated(source: Source, defaults: Fields) returns (k: nat)
    requires SemanticOf(source, defaults).Wordless?
    ensures
      var r := SemanticOf(source, defaults);
      FirstAt(source.Lexemes(defaults).all, LacksWholeWord, k, r.position, r.token) && source.Says(r.position, r.token)
  {
    var all := source.Lexemes(defaults).all;
    SomeLacksWholeWord(source, defaults);
    k := FirstIsFound(source, defaults, LacksWholeWord);
    LexingIsSound(source, defaults, 0);
    assert all[k] in all;
  }

  lemma SomeLacksWholeWord(source: Source, defaults: Fields)
    requires SemanticOf(source, defaults).Wordless?
    ensures exists x :: x in source.Lexemes(defaults).all && LacksWholeWord(x.symbol)
  {
    LexingIsSound(source, defaults, 0);
    if forall x :: x in source.Lexemes(defaults).all ==> !LacksWholeWord(x.symbol) {
      AllWholeMeans(source, defaults);
    }
  }

  lemma AllWholeMeans(source: Source, defaults: Fields)
    requires RankedOf(source, defaults).Rankable?
    requires forall x :: x in source.Lexemes(defaults).all ==> source.Legible(x) && !LacksWholeWord(x.symbol)
    ensures SemanticText(RankedOf(source, defaults).node) != ""
  {
    var node := QueryOf(source, defaults).value;
    TreeConsists(source, defaults, true, Whole);
    ParsedTreesBuild(source, defaults);
    NormalFormIsFixed(node);
    RankedMeans(node);
    MeaningIsText(node);
  }
}
