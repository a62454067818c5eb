/** The recursive-descent parser of the query language (search/parser.py). */
module Parser {
  import opened Query
  import opened CompileFts5
  import opened QueryScanner

  /** How deeply parentheses may nest. */
  const MAX_GROUP_DEPTH: nat := 32

  datatype Error =
    | Empty
    | Unmatched(closing: Lexeme)
    | NeverClosed(opening: Lexeme)
    | TooDeep(opening: Lexeme)
    | ExpectedAfter(operator: Lexeme)
    | ExpectedBefore(lexeme: Lexeme)
    | Unreadable(fault: Fault)

  datatype Outcome<T> = Parsed(value: T, at: nat) | Refused(error: Error)

  predicate StartsOperand(symbol: Symbol) {
    symbol.Operand? || symbol == OpenOp || symbol == NotOp
  }

  predicate Ends(symbol: Symbol) {
    symbol == CloseOp || symbol == End
  }

  // ----- The grammar as functions of the lexemes from index `i`

  function Extended(operands: seq<Node>, more: Outcome<seq<Node>>): Outcome<seq<Node>> {
    match more
    case Refused(error) => Refused(error)
    case Parsed(nodes, at) => Parsed(operands + nodes, at)
  }

  function Disjunction(all: seq<Lexeme>, i: nat, depth: nat): (r: Outcome<Node>)
    requires Scanned(all) && i < |all|
    ensures r.Parsed? ==> i < r.at < |all|
    decreases |all| - i, 5
  {
    match Conjunction(all, i, depth)
    case Refused(error) => Refused(error)
    case Parsed(first, at) =>
      match Disjuncts(all, at, depth)
      case Refused(error) => Refused(error)
      case Parsed(more, end) => Parsed(Or([first] + more), end)
  }

  /** The operands behind further ORs. */
  function Disjuncts(all: seq<Lexeme>, i: nat, depth: nat): (r: Outcome<seq<Node>>)
    requires Scanned(all) && i < |all|
    ensures r.Parsed? ==> i <= r.at < |all|
    decreases |all| - i, 5
  {
    if all[i].symbol != OrOp then Parsed([], i)
    else
      match Conjunction(all, i + 1, depth)
      case Refused(error) => Refused(error)
      case Parsed(next, at) => Extended([next], Disjuncts(all, at, depth))
  }

  function Conjunction(all: seq<Lexeme>, i: nat, depth: nat): (r: Outcome<Node>)
    requires Scanned(all) && i < |all|
    ensures r.Parsed? ==> i < r.at < |all|
    decreases |all| - i, 4
  {
    match Negation(all, i, depth)
    case Refused(error) => Refused(error)
    case Parsed(first, at) =>
      match Conjuncts(all, at, depth)
      case Refused(error) => Refused(error)
      case Parsed(more, end) => Parsed(And([first] + more), end)
  }

  /** The operands behind further ANDs, written or left out. */
  function Conjuncts(all: seq<Lexeme>, i: nat, depth: nat): (r: Outcome<seq<Node>>)
    requires Scanned(all) && i < |all|
    ensures r.Parsed? ==> i <= r.at < |all|
    decreases |all| - i, 4
  {
    if all[i].symbol != AndOp && !StartsOperand(all[i].symbol) then Parsed([], i)
    else
      match Negation(all, if all[i].symbol == AndOp then i + 1 else i, depth)
      case Refused(error) => Refused(error)
      case Parsed(next, at) => Extended([next], Conjuncts(all, at, depth))
  }

  function Nots(all: seq<Lexeme>, i: nat): (r: nat)
    requires Scanned(all) && i < |all|
    ensures i + r < |all| && all[i + r].symbol != NotOp
    ensures forall k :: i <= k < i + r ==> all[k].symbol == NotOp
    decreases |all| - i
  {
    if all[i].symbol == NotOp then 1 + Nots(all, i + 1) else 0
  }

  function Negation(all: seq<Lexeme>, i: nat, depth: nat): (r: Outcome<Node>)
    requires Scanned(all) && i < |all|
    ensures r.Parsed? ==> i < r.at < |all|
    decreases |all| - i, 3
  {
    var negations := Nots(all, i);
    match Primary(all, i + negations, depth)
    case Refused(error) => Refused(error)
    case Parsed(operand, at) => Parsed(if negations % 2 == 1 then Not(operand) else operand, at)
  }

  function Primary(all: seq<Lexeme>, i: nat, depth: nat): (r: Outcome<Node>)
    requires Scanned(all) && i < |all|
    ensures r.Parsed? ==> i < r.at < |all|
    decreases |all| - i, 2
  {
    match all[i].symbol
    case Operand(node) => Parsed(node, i + 1)
    case OpenOp => Bracketed(all, i, depth + 1)
    case End => Refused(ExpectedAfter(if i == 0 then all[0] else all[i - 1]))
    case _ => Refused(ExpectedBefore(all[i]))
  }

  function Bracketed(all: seq<Lexeme>, i: nat, depth: nat): (r: Outcome<Node>)
    requires Scanned(all) && i < |all| && all[i].symbol == OpenOp
    ensures r.Parsed? ==> i < r.at < |all|
    decreases |all| - i, 1
  {
    if depth > MAX_GROUP_DEPTH then Refused(TooDeep(all[i]))
    else
      match Disjunction(all, i + 1, depth)
      case Refused(error) => Refused(error)
      case Parsed(node, at) => if all[at].symbol == CloseOp then Parsed(node, at + 1) else Refused(NeverClosed(all[i]))
  }

  function Parse(all: seq<Lexeme>): Outcome<Node>
    requires Scanned(all)
  {
    if all[0].symbol == End then Refused(Empty)
    else
      match Disjunction(all, 0, 0)
      case Refused(error) => Refused(error)
      case Parsed(node, at) => if all[at].symbol == CloseOp then Refused(Unmatched(all[at])) else Parsed(node, at)
  }

  /** What a caller of the parser gets: the canonical form of the tree. */
  function ParseQuery(all: seq<Lexeme>): Outcome<Node>
    requires Scanned(all)
  {
    match Parse(all)
    case Refused(error) => Refused(error)
    case Parsed(node, at) => Parsed(Normal(node), at)
  }

  /** What is found before the scanner's first fault stands; whatever needs the lexeme behind it is that fault. */
  function Told<T>(outcome: Outcome<T>, all: seq<Lexeme>, fault: Option<Fault>): Outcome<T> {
    var reached :=
      match outcome
      case Parsed(_, at) => at + 1 >= |all|
      case Refused(error) => error.Empty? || error.ExpectedAfter? || error.NeverClosed?;
    if fault.Some? && reached then Refused(Unreadable(fault.value)) else outcome
  }

  /** The query a text stands for, in its canonical form, or its first fault. */
  function QueryOf(source: Source, defaults: Fields): Outcome<Node> {
    var lexed := source.Lexemes(defaults);
    Told(ParseQuery(lexed.all), lexed.all, lexed.fault)
  }

  // ----- Where parsing stops, and what an error is about

  /** The error is about a lexeme of the text, of the kind it complains of. */
  ghost predicate Blames(all: seq<Lexeme>, error: Error)
    requires all != []
  {
    match error
    case Empty => all[0].symbol == End
    case Unmatched(closing) => closing in all && closing.symbol == CloseOp
    case NeverClosed(opening) => opening in all && opening.symbol == OpenOp
    case TooDeep(opening) => opening in all && opening.symbol == OpenOp
    case ExpectedAfter(operator) => operator in all
    case ExpectedBefore(lexeme) => lexeme in all
    case Unreadable(_) => false
  }

  ghost predicate StopsOrBlames<T>(all: seq<Lexeme>, r: Outcome<T>, beforeOr: bool)
    requires all != []
  {
    match r
    case Parsed(_, at) => at < |all| && (Ends(all[at].symbol) || (beforeOr && all[at].symbol == OrOp))
    case Refused(error) => Blames(all, error)
  }

  lemma {:induction false} DisjunctionStops(all: seq<Lexeme>, i: nat, depth: nat)
    requires Scanned(all) && i < |all|
    ensures StopsOrBlames(all, Disjunction(all, i, depth), false)
    decreases |all| - i, 5
  {
    var first := Conjunction(all, i, depth);
    ConjunctionStops(all, i, depth);
    if first.Parsed? {
      DisjunctsStop(all, first.at, depth);
    }
  }

  lemma {:induction false} DisjunctsStop(all: seq<Lexeme>, i: nat, depth: nat)
    requires Scanned(all) && i < |all| && (all[i].symbol == OrOp || Ends(all[i].symbol))
    ensures StopsOrBlames(all, Disjuncts(all, i, depth), false)
    decreases |all| - i, 5
  {
    if all[i].symbol == OrOp {
      var next := Conjunction(all, i + 1, depth);
      ConjunctionStops(all, i + 1, depth);
      if next.Parsed? {
        DisjunctsStop(all, next.at, depth);
      }
    }
  }

  lemma {:induction false} ConjunctionStops(all: seq<Lexeme>, i: nat, depth: nat)
    requires Scanned(all) && i < |all|
    ensures StopsOrBlames(all, Conjunction(all, i, depth), true)
    decreases |all| - i, 4
  {
    var first := Negation(all, i, depth);
    NegationBlames(all, i, depth);
    if first.Parsed? {
      ConjunctsStop(all, first.at, depth);
    }
  }

  lemma {:induction false} ConjunctsStop(all: seq<Lexeme>, i: nat, depth: nat)
    requires Scanned(all) && i < |all|
    ensures StopsOrBlames(all, Conjuncts(all, i, depth), true)
    decreases |all| - i, 4
  {
    if all[i].symbol == AndOp || StartsOperand(all[i].symbol) {
      var from := if all[i].symbol == AndOp then i + 1 else i;
      var next := Negation(all, from, depth);
      NegationBlames(all, from, depth);
      if next.Parsed? {
        ConjunctsStop(all, next.at, depth);
      }
    }
  }

  lemma {:induction false} NegationBlames(all: seq<Lexeme>, i: nat, depth: nat)
    requires Scanned(all) && i < |all|
    ensures Negation(all, i, depth).Refused? ==> Blames(all, Negation(all, i, depth).error)
    decreases |all| - i, 3
  {
    PrimaryBlames(all, i + Nots(all, i), depth);
  }

  lemma {:induction false} PrimaryBlames(all: seq<Lexeme>, i: nat, depth: nat)
    requires Scanned(all) && i < |all|
    ensures Primary(all, i, depth).Refused? ==> Blames(all, Primary(all, i, depth).error)
    decreases |all| - i, 2
  {
    assert all[i] in all && all[if i == 0 then 0 else i - 1] in all;
    if all[i].symbol == OpenOp {
      assert Primary(all, i, depth) == Bracketed(all, i, depth + 1);
      if depth < MAX_GROUP_DEPTH {
        DisjunctionStops(all, i + 1, depth + 1);
      }
    }
  }

  lemma ParseBlames(all: seq<Lexeme>)
    requires Scanned(all)
    ensures match Parse(all) case Parsed(_, at) => at + 1 == |all| case Refused(error) => Blames(all, error)
  {
    DisjunctionStops(all, 0, 0);
  }

  // ----- The grammar as derivations

  datatype Disj = Disj(first: Conj, rest: seq<Conj>)

  datatype Conj = Conj(first: Neg, rest: seq<More>)

  /** A further operand, with whether an AND is written before it. */
  datatype More = More(written: bool, operand: Neg)

  datatype Neg = Neg(nots: nat, operand: Prim)

  datatype Prim = Word(node: Node) | Group(inner: Disj)

  function SpellDisj(d: Disj): seq<Symbol>
    decreases d
  {
    SpellConj(d.first) + SpellConjs(d.rest)
  }

  function SpellConjs(cs: seq<Conj>): seq<Symbol>
    decreases cs
  {
    if cs == [] then [] else [OrOp] + SpellConj(cs[0]) + SpellConjs(cs[1..])
  }

  function SpellConj(c: Conj): seq<Symbol>
    decreases c
  {
    SpellNeg(c.first) + SpellNegs(c.rest)
  }

  function SpellNegs(ns: seq<More>): seq<Symbol>
    decreases ns
  {
    if ns == [] then [] else SpellMore(ns[0]) + SpellNegs(ns[1..])
  }

  function SpellMore(m: More): seq<Symbol>
    decreases m
  {
    (if m.written then [AndOp] else []) + SpellNeg(m.operand)
  }

  function SpellNeg(n: Neg): seq<Symbol>
    decreases n
  {
    seq(n.nots, _ => NotOp) + SpellPrim(n.operand)
  }

  function SpellPrim(p: Prim): seq<Symbol>
    decreases p
  {
    match p
    case Word(node) => [Operand(node)]
    case Group(inner) => [OpenOp] + SpellDisj(inner) + [CloseOp]
  }

  function TreeDisj(d: Disj): Node
    decreases d
  {
    Or([TreeConj(d.first)] + TreeConjs(d.rest))
  }

  function TreeConjs(cs: seq<Conj>): seq<Node>
    decreases cs
  {
    if cs == [] then [] else [TreeConj(cs[0])] + TreeConjs(cs[1..])
  }

  function TreeConj(c: Conj): Node
    decreases c
  {
    And([TreeNeg(c.first)] + TreeNegs(c.rest))
  }

  function TreeNegs(ns: seq<More>): seq<Node>
    decreases ns
  {
    if ns == [] then [] else [TreeMore(ns[0])] + TreeNegs(ns[1..])
  }

  function TreeMore(m: More): Node
    decreases m
  {
    TreeNeg(m.operand)
  }

  /** A run of NOTs counts by its parity. */
  function TreeNeg(n: Neg): Node
    decreases n
  {
    if n.nots % 2 == 1 then Not(TreePrim(n.operand)) else TreePrim(n.operand)
  }

  function TreePrim(p: Prim): Node
    decreases p
  {
    match p
    case Word(node) => node
    case Group(inner) => TreeDisj(inner)
  }

  function Max(a: nat, b: nat): nat {
    if a < b then b else a
  }

  /** How many pairs of parentheses stand around the deepest word. */
  function NestDisj(d: Disj): nat
    decreases d
  {
    Max(NestConj(d.first), NestConjs(d.rest))
  }

  function NestConjs(cs: seq<Conj>): nat
    decreases cs
  {
    if cs == [] then 0 else Max(NestConj(cs[0]), NestConjs(cs[1..]))
  }

  function NestConj(c: Conj): nat
    decreases c
  {
    Max(NestNeg(c.first), NestNegs(c.rest))
  }

  function NestNegs(ns: seq<More>): nat
    decreases ns
  {
    if ns == [] then 0 else Max(NestMore(ns[0]), NestNegs(ns[1..]))
  }

  function NestMore(m: More): nat
    decreases m
  {
    NestNeg(m.operand)
  }

  function NestNeg(n: Neg): nat
    decreases n
  {
    NestPrim(n.operand)
  }

  function NestPrim(p: Prim): nat
    decreases p
  {
    match p
    case Word(_) => 0
    case Group(inner) => 1 + NestDisj(inner)
  }

  /** The lexemes from `i` on begin with `symbols`. */
  ghost predicate Spelled(all: seq<Lexeme>, i: nat, symbols: seq<Symbol>)
    decreases |symbols|
  {
    if symbols == [] then i <= |all|
    else i < |all| && all[i].symbol == symbols[0] && Spelled(all, i + 1, symbols[1..])
  }

  lemma {:induction false} SpelledFits(all: seq<Lexeme>, i: nat, symbols: seq<Symbol>)
    requires Spelled(all, i, symbols)
    ensures i + |symbols| <= |all|
    ensures forall k :: 0 <= k < |symbols| ==> all[i + k].symbol == symbols[k]
    decreases |symbols|
  {
    if symbols != [] {
      SpelledFits(all, i + 1, symbols[1..]);
      forall k | 0 < k < |symbols|
        ensures all[i + k].symbol == symbols[k]
      {
        assert all[i + 1 + (k - 1)].symbol == symbols[1..][k - 1];
      }
    }
  }

  lemma {:induction false} SpelledSplits(all: seq<Lexeme>, i: nat, a: seq<Symbol>, b: seq<Symbol>)
    ensures Spelled(all, i, a + b) <==> Spelled(all, i, a) && Spelled(all, i + |a|, b)
    decreases |a|
  {
    if a == [] {
      assert a + b == b;
      if Spelled(all, i, b) {
        SpelledFits(all, i, b);
      }
    } else {
      assert (a + b)[1..] == a[1..] + b;
      SpelledSplits(all, i + 1, a[1..], b);
    }
  }

  // ----- Every derivation within the depth limit is parsed as its tree

  lemma {:induction false} DisjParses(all: seq<Lexeme>, i: nat, depth: nat, d: Disj)
    requires Scanned(all) && Spelled(all, i, SpellDisj(d)) && depth + NestDisj(d) <= MAX_GROUP_DEPTH
    requires i + |SpellDisj(d)| < |all| && Ends(all[i + |SpellDisj(d)|].symbol)
    ensures Disjunction(all, i, depth) == Parsed(TreeDisj(d), i + |SpellDisj(d)|)
    decreases d, 1
  {
    SpelledSplits(all, i, SpellConj(d.first), SpellConjs(d.rest));
    var at := i + |SpellConj(d.first)|;
    FollowsConj(all, at, d.rest);
    ConjParses(all, i, depth, d.first);
    ConjsParse(all, at, depth, d.rest);
  }

  lemma {:induction false} FollowsConj(all: seq<Lexeme>, i: nat, cs: seq<Conj>)
    requires Spelled(all, i, SpellConjs(cs))
    requires i + |SpellConjs(cs)| < |all| && Ends(all[i + |SpellConjs(cs)|].symbol)
    ensures all[i].symbol == OrOp || Ends(all[i].symbol)
  {
    if cs != [] {
      assert SpellConjs(cs)[0] == OrOp;
      assert all[i + 0].symbol == OrOp;
    }
  }

  lemma {:induction false} ConjsParse(all: seq<Lexeme>, i: nat, depth: nat, cs: seq<Conj>)
    requires Scanned(all) && Spelled(all, i, SpellConjs(cs)) && depth + NestConjs(cs) <= MAX_GROUP_DEPTH
    requires i + |SpellConjs(cs)| < |all| && Ends(all[i + |SpellConjs(cs)|].symbol)
    ensures Disjuncts(all, i, depth) == Parsed(TreeConjs(cs), i + |SpellConjs(cs)|)
    decreases cs, 0
  {
    if cs != [] {
      var at := i + 1 + |SpellConj(cs[0])|;
      ConjsSplit(all, i, cs, SpellConj(cs[0]), SpellConjs(cs[1..]), at);
      assert NestConj(cs[0]) <= NestConjs(cs) && NestConjs(cs[1..]) <= NestConjs(cs);
      FollowsConj(all, at, cs[1..]);
      ConjParses(all, i + 1, depth, cs[0]);
      ConjsParse(all, at, depth, cs[1..]);
    }
  }

  lemma {:induction false} ConjsSplit(all: seq<Lexeme>, i: nat, cs: seq<Conj>, first: seq<Symbol>, rest: seq<Symbol>, at: nat)
    requires cs != [] && Spelled(all, i, SpellConjs(cs))
    requires first == SpellConj(cs[0]) && rest == SpellConjs(cs[1..]) && at == i + 1 + |first|
    ensures i < |all| && all[i].symbol == OrOp && Spelled(all, i + 1, first) && Spelled(all, at, rest)
    ensures i + |SpellConjs(cs)| == at + |rest|
  {
    assert SpellConjs(cs) == [OrOp] + first + rest;
    HeadSplits(all, i, OrOp, first, rest, at);
  }

  lemma {:induction false} HeadSplits(all: seq<Lexeme>, i: nat, head: Symbol, a: seq<Symbol>, b: seq<Symbol>, at: nat)
    requires Spelled(all, i, [head] + a + b) && at == i + 1 + |a|
    ensures i < |all| && all[i].symbol == head && Spelled(all, i + 1, a) && Spelled(all, at, b)
  {
    SpelledSplits(all, i, [head] + a, b);
    SpelledSplits(all, i, [head], a);
  }

  lemma {:induction false} NegsSplit(all: seq<Lexeme>, i: nat, ns: seq<More>, first: seq<Symbol>, rest: seq<Symbol>, at: nat)
    requires ns != [] && Spelled(all, i, SpellNegs(ns))
    requires first == SpellMore(ns[0]) && rest == SpellNegs(ns[1..]) && at == i + |first|
    ensures Spelled(all, i, first) && Spelled(all, at, rest) && i + |SpellNegs(ns)| == at + |rest|
  {
    assert SpellNegs(ns) == first + rest;
    SpelledSplits(all, i, first, rest);
  }

  lemma {:induction false} ConjParses(all: seq<Lexeme>, i: nat, depth: nat, c: Conj)
    requires Scanned(all) && Spelled(all, i, SpellConj(c)) && depth + NestConj(c) <= MAX_GROUP_DEPTH
    requires i + |SpellConj(c)| < |all|
    requires all[i + |SpellConj(c)|].symbol == OrOp || Ends(all[i + |SpellConj(c)|].symbol)
    ensures Conjunction(all, i, depth) == Parsed(TreeConj(c), i + |SpellConj(c)|)
    decreases c, 1
  {
    SpelledSplits(all, i, SpellNeg(c.first), SpellNegs(c.rest));
    NegParses(all, i, depth, c.first);
    NegsParse(all, i + |SpellNeg(c.first)|, depth, c.rest, i + |SpellConj(c)|);
  }

  lemma {:induction false} NegsParse(all: seq<Lexeme>, i: nat, depth: nat, ns: seq<More>, end: nat)
    requires Scanned(all) && Spelled(all, i, SpellNegs(ns)) && depth + NestNegs(ns) <= MAX_GROUP_DEPTH
    requires end == i + |SpellNegs(ns)| < |all| && (all[end].symbol == OrOp || Ends(all[end].symbol))
    ensures Conjuncts(all, i, depth) == Parsed(TreeNegs(ns), end)
    decreases ns, 0
  {
    if ns != [] {
      var more, rest, at := ns[0], ns[1..], i + |SpellMore(ns[0])|;
      NegsSplit(all, i, ns, SpellMore(more), SpellNegs(rest), at);
      assert NestMore(more) <= NestNegs(ns) && NestNegs(rest) <= NestNegs(ns);
      MoreParses(all, i, depth, more);
      NegsParse(all, at, depth, rest, end);
      ConjunctsGoOn(all, i, depth, TreeMore(more), at, TreeNegs(rest), end);
      assert TreeNegs(ns) == [TreeMore(more)] + TreeNegs(rest);
    }
  }

  lemma {:induction false} MoreParses(all: seq<Lexeme>, i: nat, depth: nat, m: More)
    requires Scanned(all) && Spelled(all, i, SpellMore(m)) && depth + NestMore(m) <= MAX_GROUP_DEPTH
    requires i + |SpellMore(m)| < |all|
    ensures all[i].symbol == AndOp || StartsOperand(all[i].symbol)
    ensures Negation(all, if all[i].symbol == AndOp then i + 1 else i, depth)
            == Parsed(TreeMore(m), i + |SpellMore(m)|)
    decreases m, 1
  {
    var lead: seq<Symbol> := if m.written then [AndOp] else [];
    SpelledSplits(all, i, lead, SpellNeg(m.operand));
    NegLeads(m.operand);
    assert all[i + |lead| + 0].symbol == SpellNeg(m.operand)[0];
    assert m.written ==> all[i + 0].symbol == lead[0];
    NegParses(all, i + |lead|, depth, m.operand);
  }

  lemma {:induction false} PrimLeads(p: Prim)
    ensures SpellPrim(p) != [] && (SpellPrim(p)[0].Operand? || SpellPrim(p)[0] == OpenOp)
  {
  }

  lemma {:induction false} NegLeads(n: Neg)
    ensures SpellNeg(n) != [] && StartsOperand(SpellNeg(n)[0])
  {
    PrimLeads(n.operand);
  }

  lemma {:induction false} NotsAre(all: seq<Lexeme>, i: nat, count: nat)
    requires Scanned(all) && i + count < |all| && all[i + count].symbol != NotOp
    requires forall k :: i <= k < i + count ==> all[k].symbol == NotOp
    ensures Nots(all, i) == count
    decreases count
  {
    if count > 0 {
      NotsAre(all, i + 1, count - 1);
    }
  }

  lemma {:induction false} NotsSpelled(all: seq<Lexeme>, i: nat, count: nat)
    requires i + count <= |all| && forall k :: i <= k < i + count ==> all[k].symbol == NotOp
    ensures Spelled(all, i, seq(count, _ => NotOp))
    decreases count
  {
    if count > 0 {
      NotsSpelled(all, i + 1, count - 1);
      assert seq(count, _ => NotOp)[1..] == seq(count - 1, _ => NotOp);
    }
  }

  lemma {:induction false} NegParses(all: seq<Lexeme>, i: nat, depth: nat, n: Neg)
    requires Scanned(all) && Spelled(all, i, SpellNeg(n)) && depth + NestNeg(n) <= MAX_GROUP_DEPTH
    requires i + |SpellNeg(n)| < |all|
    ensures Negation(all, i, depth) == Parsed(TreeNeg(n), i + |SpellNeg(n)|)
    decreases n, 1
  {
    var nots := seq(n.nots, _ => NotOp);
    SpelledSplits(all, i, nots, SpellPrim(n.operand));
    PrimLeads(n.operand);
    SpelledFits(all, i, nots);
    assert forall k :: i <= k < i + n.nots ==> all[k].symbol == nots[k - i];
    NotsAre(all, i, n.nots);
    PrimParses(all, i + n.nots, depth, n.operand);
  }

  lemma {:induction false} PrimParses(all: seq<Lexeme>, i: nat, depth: nat, p: Prim)
    requires Scanned(all) && Spelled(all, i, SpellPrim(p)) && depth + NestPrim(p) <= MAX_GROUP_DEPTH
    requires i + |SpellPrim(p)| < |all|
    ensures Primary(all, i, depth) == Parsed(TreePrim(p), i + |SpellPrim(p)|)
    decreases p, 1
  {
    match p
    case Word(node) =>
      assert all[i + 0].symbol == SpellPrim(p)[0];
    case Group(inner) =>
      SpelledSplits(all, i, [OpenOp] + SpellDisj(inner), [CloseOp]);
      SpelledSplits(all, i, [OpenOp], SpellDisj(inner));
      assert all[i + 0].symbol == [OpenOp][0];
      var at := i + 1 + |SpellDisj(inner)|;
      assert all[at + 0].symbol == [CloseOp][0];
      DisjParses(all, i + 1, depth + 1, inner);
  }

  // ----- Whatever is parsed has a derivation with that tree, within the depth limit

  lemma {:induction false} DisjDerives(all: seq<Lexeme>, i: nat, depth: nat) returns (d: Disj)
    requires Scanned(all) && i < |all| && depth <= MAX_GROUP_DEPTH && Disjunction(all, i, depth).Parsed?
    ensures Spelled(all, i, SpellDisj(d)) && depth + NestDisj(d) <= MAX_GROUP_DEPTH
    ensures Disjunction(all, i, depth) == Parsed(TreeDisj(d), i + |SpellDisj(d)|)
    ensures Ends(all[i + |SpellDisj(d)|].symbol)
    decreases |all| - i, 5
  {
    var first := ConjDerives(all, i, depth);
    var rest := ConjsDerive(all, i + |SpellConj(first)|, depth);
    d := Disj(first, rest);
    SpelledSplits(all, i, SpellConj(first), SpellConjs(rest));
  }

  lemma {:induction false} ConjsDerive(all: seq<Lexeme>, i: nat, depth: nat) returns (cs: seq<Conj>)
    requires Scanned(all) && i < |all| && depth <= MAX_GROUP_DEPTH && Disjuncts(all, i, depth).Parsed?
    requires all[i].symbol == OrOp || Ends(all[i].symbol)
    ensures Spelled(all, i, SpellConjs(cs)) && depth + NestConjs(cs) <= MAX_GROUP_DEPTH
    ensures Disjuncts(all, i, depth) == Parsed(TreeConjs(cs), i + |SpellConjs(cs)|)
    ensures Ends(all[i + |SpellConjs(cs)|].symbol)
    decreases |all| - i, 5
  {
    if all[i].symbol != OrOp {
      cs := [];
    } else {
      var next := ConjDerives(all, i + 1, depth);
      var rest := ConjsDerive(all, i + 1 + |SpellConj(next)|, depth);
      cs := ConjsCompose(all, i, next, rest);
    }
  }

  lemma {:induction false} ConjDerives(all: seq<Lexeme>, i: nat, depth: nat) returns (c: Conj)
    requires Scanned(all) && i < |all| && depth <= MAX_GROUP_DEPTH && Conjunction(all, i, depth).Parsed?
    ensures Spelled(all, i, SpellConj(c)) && depth + NestConj(c) <= MAX_GROUP_DEPTH
    ensures Conjunction(all, i, depth) == Parsed(TreeConj(c), i + |SpellConj(c)|)
    ensures all[i + |SpellConj(c)|].symbol == OrOp || Ends(all[i + |SpellConj(c)|].symbol)
    decreases |all| - i, 4
  {
    var first := NegDerives(all, i, depth);
    var at := i + |SpellNeg(first)|;
    var rest := NegsDerive(all, at, depth);
    c := Conj(first, rest);
    ConjComposes(all, i, depth, first, at, rest, at + |SpellNegs(rest)|);
  }

  lemma {:induction false} ConjComposes(all: seq<Lexeme>, i: nat, depth: nat, first: Neg, at: nat, rest: seq<More>, end: nat)
    requires Scanned(all) && i < |all| && at == i + |SpellNeg(first)| < |all| && end == at + |SpellNegs(rest)|
    requires Spelled(all, i, SpellNeg(first)) && depth + NestNeg(first) <= MAX_GROUP_DEPTH
    requires Negation(all, i, depth) == Parsed(TreeNeg(first), at) && NegsAt(all, at, depth, rest)
    ensures Spelled(all, i, SpellConj(Conj(first, rest))) && depth + NestConj(Conj(first, rest)) <= MAX_GROUP_DEPTH
    ensures end == i + |SpellConj(Conj(first, rest))|
    ensures Conjunction(all, i, depth) == Parsed(TreeConj(Conj(first, rest)), end)
  {
    SpelledSplits(all, i, SpellNeg(first), SpellNegs(rest));
  }

  lemma ConjunctsGoOn(all: seq<Lexeme>, i: nat, depth: nat, next: Node, at: nat, more: seq<Node>, end: nat)
    requires Scanned(all) && i < |all| && (all[i].symbol == AndOp || StartsOperand(all[i].symbol))
    requires Negation(all, if all[i].symbol == AndOp then i + 1 else i, depth) == Parsed(next, at)
    requires Conjuncts(all, at, depth) == Parsed(more, end)
    ensures Conjuncts(all, i, depth) == Parsed([next] + more, end)
  {
  }

  /** `ns` derives the operands from `i` on, up to an OR or the end of a group. */
  ghost predicate NegsAt(all: seq<Lexeme>, i: nat, depth: nat, ns: seq<More>)
    requires Scanned(all) && i < |all|
  {
    && i + |SpellNegs(ns)| < |all| && Spelled(all, i, SpellNegs(ns)) && depth + NestNegs(ns) <= MAX_GROUP_DEPTH
    && Conjuncts(all, i, depth) == Parsed(TreeNegs(ns), i + |SpellNegs(ns)|)
    && (all[i + |SpellNegs(ns)|].symbol == OrOp || Ends(all[i + |SpellNegs(ns)|].symbol))
  }

  lemma {:induction false} NegsDerive(all: seq<Lexeme>, i: nat, depth: nat) returns (ns: seq<More>)
    requires Scanned(all) && i < |all| && depth <= MAX_GROUP_DEPTH && Conjuncts(all, i, depth).Parsed?
    ensures NegsAt(all, i, depth, ns)
    decreases |all| - i, 4
  {
    if all[i].symbol != AndOp && !StartsOperand(all[i].symbol) {
      ns := [];
    } else {
      var more := MoreDerives(all, i, depth);
      var rest := NegsDerive(all, i + |SpellMore(more)|, depth);
      ns := NegsCompose(all, i, depth, more, rest);
    }
  }

  lemma {:induction false} ConjsCompose(all: seq<Lexeme>, i: nat, first: Conj, rest: seq<Conj>) returns (cs: seq<Conj>)
    requires i < |all| && all[i].symbol == OrOp && Spelled(all, i + 1, SpellConj(first))
    requires Spelled(all, i + 1 + |SpellConj(first)|, SpellConjs(rest))
    ensures Spelled(all, i, SpellConjs(cs))
    ensures |SpellConjs(cs)| == 1 + |SpellConj(first)| + |SpellConjs(rest)|
    ensures NestConjs(cs) == Max(NestConj(first), NestConjs(rest))
    ensures TreeConjs(cs) == [TreeConj(first)] + TreeConjs(rest)
  {
    cs := [first] + rest;
    assert cs[1..] == rest;
    assert SpellConjs(cs) == [OrOp] + SpellConj(first) + SpellConjs(rest);
    SpelledSplits(all, i, [OrOp], SpellConj(first));
    SpelledSplits(all, i, [OrOp] + SpellConj(first), SpellConjs(rest));
  }

  lemma {:induction false} NegsCompose(all: seq<Lexeme>, i: nat, depth: nat, first: More, rest: seq<More>) returns (ns: seq<More>)
    requires Scanned(all) && i < |all| && (all[i].symbol == AndOp || StartsOperand(all[i].symbol))
    requires Spelled(all, i, SpellMore(first)) && depth + NestMore(first) <= MAX_GROUP_DEPTH
    requires Negation(all, if all[i].symbol == AndOp then i + 1 else i, depth)
             == Parsed(TreeMore(first), i + |SpellMore(first)|)
    requires i + |SpellMore(first)| < |all| && NegsAt(all, i + |SpellMore(first)|, depth, rest)
    ensures NegsAt(all, i, depth, ns)
  {
    ns := [first] + rest;
    var at := i + |SpellMore(first)|;
    assert ns[1..] == rest;
    assert SpellNegs(ns) == SpellMore(first) + SpellNegs(rest);
    SpelledSplits(all, i, SpellMore(first), SpellNegs(rest));
    ConjunctsGoOn(all, i, depth, TreeMore(first), at, TreeNegs(rest), at + |SpellNegs(rest)|);
  }

  lemma {:induction false} MoreDerives(all: seq<Lexeme>, i: nat, depth: nat) returns (m: More)
    requires Scanned(all) && i < |all| && depth <= MAX_GROUP_DEPTH
    requires all[i].symbol == AndOp || StartsOperand(all[i].symbol)
    requires Negation(all, if all[i].symbol == AndOp then i + 1 else i, depth).Parsed?
    ensures Spelled(all, i, SpellMore(m)) && depth + NestMore(m) <= MAX_GROUP_DEPTH
    ensures Negation(all, if all[i].symbol == AndOp then i + 1 else i, depth)
            == Parsed(TreeMore(m), i + |SpellMore(m)|)
    decreases |all| - i, 3, 1
  {
    var lead: seq<Symbol> := if all[i].symbol == AndOp then [AndOp] else [];
    var next := NegDerives(all, i + |lead|, depth);
    m := More(all[i].symbol == AndOp, next);
    SpelledSplits(all, i, lead, SpellNeg(next));
  }

  lemma {:induction false} NegDerives(all: seq<Lexeme>, i: nat, depth: nat) returns (n: Neg)
    requires Scanned(all) && i < |all| && depth <= MAX_GROUP_DEPTH && Negation(all, i, depth).Parsed?
    ensures Spelled(all, i, SpellNeg(n)) && depth + NestNeg(n) <= MAX_GROUP_DEPTH
    ensures Negation(all, i, depth) == Parsed(TreeNeg(n), i + |SpellNeg(n)|)
    decreases |all| - i, 3, 0
  {
    var nots := Nots(all, i);
    var p := PrimDerives(all, i + nots, depth);
    n := Neg(nots, p);
    NotsSpelled(all, i, nots);
    SpelledSplits(all, i, seq(nots, _ => NotOp), SpellPrim(p));
  }

  lemma {:induction false} PrimDerives(all: seq<Lexeme>, i: nat, depth: nat) returns (p: Prim)
    requires Scanned(all) && i < |all| && depth <= MAX_GROUP_DEPTH && Primary(all, i, depth).Parsed?
    ensures Spelled(all, i, SpellPrim(p)) && depth + NestPrim(p) <= MAX_GROUP_DEPTH
    ensures Primary(all, i, depth) == Parsed(TreePrim(p), i + |SpellPrim(p)|)
    decreases |all| - i, 2
  {
    if all[i].symbol.Operand? {
      p := Word(all[i].symbol.node);
    } else {
      var inner := DisjDerives(all, i + 1, depth + 1);
      p := Group(inner);
      SpelledSplits(all, i, [OpenOp], SpellDisj(inner));
      SpelledSplits(all, i, [OpenOp] + SpellDisj(inner), [CloseOp]);
    }
  }

  // ----- The limit is on how deep the text's own parentheses go

  /** The deepest level reached, from `level` on; a closing parenthesis below level 0 stays at 0. */
  function Deepest(symbols: seq<Symbol>, level: nat): nat
    decreases |symbols|
  {
    if symbols == [] then level
    else
      var next := if symbols[0] == OpenOp then level + 1
                  else if symbols[0] == CloseOp && level > 0 then level - 1
                  else level;
      Max(level, Deepest(symbols[1..], next))
  }

  lemma {:induction false} DisjDeepens(d: Disj, rest: seq<Symbol>, level: nat)
    ensures Deepest(SpellDisj(d) + rest, level) == Max(level + NestDisj(d), Deepest(rest, level))
    decreases d, 1
  {
    ConjDeepens(d.first, SpellConjs(d.rest) + rest, level);
    ConjsDeepen(d.rest, rest, level);
    assert SpellDisj(d) + rest == SpellConj(d.first) + (SpellConjs(d.rest) + rest);
  }

  lemma {:induction false} ConjsDeepen(cs: seq<Conj>, rest: seq<Symbol>, level: nat)
    ensures Deepest(SpellConjs(cs) + rest, level) == Max(level + NestConjs(cs), Deepest(rest, level))
    decreases cs, 0
  {
    if cs == [] {
      assert SpellConjs(cs) + rest == rest;
      LevelIsReached(rest, level);
    } else {
      var after := SpellConjs(cs[1..]) + rest;
      var behind := SpellConj(cs[0]) + after;
      ConjsSpellOn(cs, rest, behind);
      MarkStaysLevel(OrOp, behind, level);
      ConjDeepens(cs[0], after, level);
      ConjsDeepen(cs[1..], rest, level);
    }
  }

  lemma ConjsSpellOn(cs: seq<Conj>, rest: seq<Symbol>, behind: seq<Symbol>)
    requires cs != [] && behind == SpellConj(cs[0]) + (SpellConjs(cs[1..]) + rest)
    ensures SpellConjs(cs) + rest == [OrOp] + behind
  {
    var (first, more) := (SpellConj(cs[0]), SpellConjs(cs[1..]));
    assert SpellConjs(cs) == [OrOp] + first + more;
    assert [OrOp] + first + more + rest == [OrOp] + (first + (more + rest));
  }

  /** A symbol that is no parenthesis leaves the level as it is. */
  lemma MarkStaysLevel(mark: Symbol, rest: seq<Symbol>, level: nat)
    requires mark != OpenOp && mark != CloseOp
    ensures Deepest([mark] + rest, level) == Deepest(rest, level)
  {
    LevelIsReached(rest, level);
    assert ([mark] + rest)[1..] == rest;
  }

  lemma {:induction false} LevelIsReached(symbols: seq<Symbol>, level: nat)
    ensures level <= Deepest(symbols, level)
  {
  }

  lemma {:induction false} ConjDeepens(c: Conj, rest: seq<Symbol>, level: nat)
    ensures Deepest(SpellConj(c) + rest, level) == Max(level + NestConj(c), Deepest(rest, level))
    decreases c, 1
  {
    NegDeepens(c.first, SpellNegs(c.rest) + rest, level);
    NegsDeepen(c.rest, rest, level);
    assert SpellConj(c) + rest == SpellNeg(c.first) + (SpellNegs(c.rest) + rest);
  }

  lemma {:induction false} NegsDeepen(ns: seq<More>, rest: seq<Symbol>, level: nat)
    ensures Deepest(SpellNegs(ns) + rest, level) == Max(level + NestNegs(ns), Deepest(rest, level))
    decreases ns, 0
  {
    if ns == [] {
      assert SpellNegs(ns) + rest == rest;
      LevelIsReached(rest, level);
    } else {
      var after := SpellNegs(ns[1..]) + rest;
      assert SpellNegs(ns) + rest == SpellMore(ns[0]) + after;
      MoreDeepens(ns[0], after, level);
      NegsDeepen(ns[1..], rest, level);
    }
  }

  lemma {:induction false} MoreDeepens(m: More, rest: seq<Symbol>, level: nat)
    ensures Deepest(SpellMore(m) + rest, level) == Max(level + NestMore(m), Deepest(rest, level))
    decreases m, 1
  {
    NegDeepens(m.operand, rest, level);
    if m.written {
      assert SpellMore(m) + rest == [AndOp] + (SpellNeg(m.operand) + rest);
      MarkStaysLevel(AndOp, SpellNeg(m.operand) + rest, level);
    } else {
      assert SpellMore(m) + rest == SpellNeg(m.operand) + rest;
    }
  }

  lemma {:induction false} NegDeepens(n: Neg, rest: seq<Symbol>, level: nat)
    ensures Deepest(SpellNeg(n) + rest, level) == Max(level + NestNeg(n), Deepest(rest, level))
    decreases n, 1
  {
    PrimDeepens(n.operand, rest, level);
    NotsStayLevel(n.nots, SpellPrim(n.operand) + rest, level);
    assert SpellNeg(n) + rest == seq(n.nots, _ => NotOp) + (SpellPrim(n.operand) + rest);
  }

  lemma {:induction false} NotsStayLevel(count: nat, rest: seq<Symbol>, level: nat)
    ensures Deepest(seq(count, _ => NotOp) + rest, level) == Deepest(rest, level)
  {
    LevelIsReached(rest, level);
    if count == 0 {
      assert seq(count, _ => NotOp) + rest == rest;
    } else {
      NotsStayLevel(count - 1, rest, level);
      assert (seq(count, _ => NotOp) + rest)[1..] == seq(count - 1, _ => NotOp) + rest;
    }
  }

  lemma {:induction false} PrimDeepens(p: Prim, rest: seq<Symbol>, level: nat)
    ensures Deepest(SpellPrim(p) + rest, level) == Max(level + NestPrim(p), Deepest(rest, level))
    decreases p, 1
  {
    LevelIsReached(rest, level);
    match p
    case Word(_) =>
      assert (SpellPrim(p) + rest)[1..] == rest;
    case Group(inner) =>
      assert (SpellPrim(p) + rest)[1..] == SpellDisj(inner) + ([CloseOp] + rest);
      DisjDeepens(inner, [CloseOp] + rest, level + 1);
      assert ([CloseOp] + rest)[1..] == rest;
  }

  lemma DerivationDepth(d: Disj)
    ensures Deepest(SpellDisj(d), 0) == NestDisj(d)
  {
    DisjDeepens(d, [], 0);
    assert SpellDisj(d) + [] == SpellDisj(d);
  }

  // ----- Which texts parse, and to what

  /** `d` is a derivation of the whole text. */
  ghost predicate Derives(d: Disj, all: seq<Lexeme>) {
    |SpellDisj(d)| == |all| - 1 && Spelled(all, 0, SpellDisj(d))
  }

  lemma DerivationsShareSpelling(d: Disj, e: Disj, all: seq<Lexeme>)
    requires Derives(d, all) && Derives(e, all)
    ensures SpellDisj(d) == SpellDisj(e)
  {
    SpelledFits(all, 0, SpellDisj(d));
    SpelledFits(all, 0, SpellDisj(e));
    forall k | 0 <= k < |SpellDisj(d)|
      ensures SpellDisj(d)[k] == SpellDisj(e)[k]
    {
      assert all[0 + k].symbol == SpellDisj(d)[k];
    }
  }

  /** A derivation of the whole text is parsed, to its tree, exactly when it nests within the limit. */
  lemma DerivedIsParsed(d: Disj, all: seq<Lexeme>)
    requires Scanned(all) && Derives(d, all)
    ensures Parse(all) == Parsed(TreeDisj(d), |all| - 1) <==> NestDisj(d) <= MAX_GROUP_DEPTH
    ensures Parse(all).Parsed? <==> NestDisj(d) <= MAX_GROUP_DEPTH
  {
    DisjLeads(d);
    if NestDisj(d) <= MAX_GROUP_DEPTH {
      DisjParses(all, 0, 0, d);
    } else if Parse(all).Parsed? {
      var e := DisjDerives(all, 0, 0);
      assert Derives(e, all);
      DerivationsShareSpelling(d, e, all);
      DerivationDepth(d);
      DerivationDepth(e);
    }
  }

  /** Only texts with a derivation are parsed. */
  lemma ParsedIsDerived(all: seq<Lexeme>) returns (d: Disj)
    requires Scanned(all) && Parse(all).Parsed?
    ensures Derives(d, all) && Parse(all) == Parsed(TreeDisj(d), |all| - 1)
  {
    d := DisjDerives(all, 0, 0);
  }

  lemma DisjLeads(d: Disj)
    ensures SpellDisj(d) != [] && StartsOperand(SpellDisj(d)[0])
  {
    NegLeads(d.first.first);
    assert SpellDisj(d)[0] == SpellConj(d.first)[0] == SpellNeg(d.first.first)[0];
  }

  // ----- Printing a tree and parsing it back

  /** A tree with every operator written, and parentheses only where precedence needs them. */
  function PrintDisj(node: Node): Disj
    requires Builds(node)
    decreases node, 3
  {
    if node.Or? then PrintGroup(node) else Disj(PrintConj(node), [])
  }

  /** A group without the parentheses around it. */
  function PrintGroup(node: Node): Disj
    requires Builds(node) && (node.And? || node.Or?)
    decreases node, 0
  {
    if node.Or? then Disj(PrintConj(node.operands[0]), PrintConjs(node.operands[1..]))
    else Disj(Conj(PrintNeg(node.operands[0]), PrintNegs(node.operands[1..])), [])
  }

  function PrintConjs(nodes: seq<Node>): seq<Conj>
    requires forall x :: x in nodes ==> Builds(x)
    decreases nodes, 0
  {
    if nodes == [] then [] else [PrintConj(nodes[0])] + PrintConjs(nodes[1..])
  }

  function PrintConj(node: Node): Conj
    requires Builds(node)
    decreases node, 2
  {
    if node.And? then PrintGroup(node).first else Conj(PrintNeg(node), [])
  }

  function PrintNegs(nodes: seq<Node>): seq<More>
    requires forall x :: x in nodes ==> Builds(x)
    decreases nodes, 0
  {
    if nodes == [] then [] else [More(true, PrintNeg(nodes[0]))] + PrintNegs(nodes[1..])
  }

  function PrintNeg(node: Node): Neg
    requires Builds(node)
    decreases node, 1
  {
    match node
    case Not(x) => var inner := PrintNeg(x); Neg(inner.nots + 1, inner.operand)
    case And(_) => Neg(0, Group(PrintGroup(node)))
    case Or(_) => Neg(0, Group(PrintGroup(node)))
    case _ => Neg(0, Word(node))
  }

  lemma {:induction false} SingletonCollapses(kind: Kind, x: Node)
    requires Builds(x)
    ensures Builds(Make(kind, [x])) && Normal(Make(kind, [x])) == Normal(x)
  {
    NormalIsNormalForm(x);
    assert [x][1..] == [];
    assert Flat(kind, [x]) == Parts(kind, Normal(x));
    if !Is(kind, Normal(x)) {
      assert [Normal(x)][1..] == [];
    }
  }

  /** Groups of operands with the same canonical forms have the same canonical form. */
  lemma {:induction false} FlatAgrees(kind: Kind, a: seq<Node>, b: seq<Node>)
    requires |a| == |b| && forall k :: 0 <= k < |a| ==> Normal(a[k]) == Normal(b[k])
    ensures Flat(kind, a) == Flat(kind, b)
    decreases |a|
  {
    if a != [] {
      FlatAgrees(kind, a[1..], b[1..]);
    }
  }

  ghost predicate Same(a: Node, b: Node) {
    Builds(a) && Normal(a) == Normal(b)
  }

  ghost predicate SameAll(a: seq<Node>, b: seq<Node>) {
    |a| == |b| && forall k :: 0 <= k < |a| ==> Same(a[k], b[k])
  }

  lemma GroupIsSame(kind: Kind, a: seq<Node>, b: seq<Node>)
    requires SameAll(a, b) && a != []
    ensures Same(Make(kind, a), Make(kind, b))
  {
    FlatAgrees(kind, a, b);
  }

  lemma {:induction false} PrintNegIsSame(node: Node)
    requires Builds(node)
    ensures Same(TreeNeg(PrintNeg(node)), node)
    decreases node, 1
  {
    match node
    case Not(x) =>
      PrintNegIsSame(x);
      NormalIsNormalForm(TreePrim(PrintNeg(x).operand));
    case And(_) => PrintGroupIsSame(node);
    case Or(_) => PrintGroupIsSame(node);
    case _ =>
  }

  lemma {:induction false} PrintGroupIsSame(node: Node)
    requires Builds(node) && (node.And? || node.Or?)
    ensures Same(TreeDisj(PrintGroup(node)), node)
    ensures node.And? ==> Same(TreeConj(PrintGroup(node).first), node)
    decreases node, 0
  {
    var operands := node.operands;
    assert operands == [operands[0]] + operands[1..];
    if node.Or? {
      PrintConjIsSame(operands[0]);
      PrintConjsAreSame(operands[1..]);
      GroupIsSame(OrKind, [TreeConj(PrintConj(operands[0]))] + TreeConjs(PrintConjs(operands[1..])), operands);
    } else {
      var inner := TreeConj(PrintGroup(node).first);
      PrintNegIsSame(operands[0]);
      PrintNegsAreSame(operands[1..]);
      GroupIsSame(AndKind, [TreeNeg(PrintNeg(operands[0]))] + TreeNegs(PrintNegs(operands[1..])), operands);
      SingletonCollapses(OrKind, inner);
      assert [inner] + TreeConjs([]) == [inner];
    }
  }

  lemma {:induction false} PrintConjsAreSame(nodes: seq<Node>)
    requires forall x :: x in nodes ==> Builds(x)
    ensures SameAll(TreeConjs(PrintConjs(nodes)), nodes)
    decreases nodes, 0
  {
    if nodes != [] {
      PrintConjIsSame(nodes[0]);
      PrintConjsAreSame(nodes[1..]);
    }
  }

  lemma {:induction false} PrintNegsAreSame(nodes: seq<Node>)
    requires forall x :: x in nodes ==> Builds(x)
    ensures SameAll(TreeNegs(PrintNegs(nodes)), nodes)
    decreases nodes, 0
  {
    if nodes != [] {
      PrintNegIsSame(nodes[0]);
      PrintNegsAreSame(nodes[1..]);
    }
  }

  lemma {:induction false} PrintConjIsSame(node: Node)
    requires Builds(node)
    ensures Same(TreeConj(PrintConj(node)), node)
    decreases node, 2
  {
    if node.And? {
      PrintGroupIsSame(node);
    } else {
      PrintNegIsSame(node);
      var inner := TreeNeg(PrintNeg(node));
      SingletonCollapses(AndKind, inner);
      assert [inner] + TreeNegs([]) == [inner];
    }
  }

  lemma {:induction false} PrintIsSame(node: Node)
    requires Builds(node)
    ensures Same(TreeDisj(PrintDisj(node)), node)
  {
    if node.Or? {
      PrintGroupIsSame(node);
    } else {
      PrintConjIsSame(node);
      var inner := TreeConj(PrintConj(node));
      SingletonCollapses(OrKind, inner);
      assert [inner] + TreeConjs([]) == [inner];
    }
  }

  /** A tree printed and parsed back is its canonical form, as long as the printed parentheses nest
      within the limit, and is refused otherwise. */
  lemma PrintThenParse(node: Node, all: seq<Lexeme>)
    requires Builds(node) && Scanned(all) && Derives(PrintDisj(node), all)
    ensures ParseQuery(all) == Parsed(Normal(node), |all| - 1) <==> Deepest(SpellDisj(PrintDisj(node)), 0) <= MAX_GROUP_DEPTH
    ensures ParseQuery(all).Parsed? <==> Deepest(SpellDisj(PrintDisj(node)), 0) <= MAX_GROUP_DEPTH
  {
    DerivationDepth(PrintDisj(node));
    DerivedIsParsed(PrintDisj(node), all);
    PrintIsSame(node);
  }

  // ----- A tree consists of the words and NOTs of its text

  /** The symbol is no NOT unless allowed, and a word or group only if it satisfies `p`. */
  ghost predicate Fair(symbol: Symbol, nots: bool, p: Node -> bool) {
    (symbol == NotOp ==> nots) && (symbol.Operand? ==> p(symbol.node) && !symbol.node.And? && !symbol.node.Or? && !symbol.node.Not?)
  }

  ghost predicate FairAll(symbols: seq<Symbol>, nots: bool, p: Node -> bool) {
    forall k :: 0 <= k < |symbols| ==> Fair(symbols[k], nots, p)
  }

  lemma FairSplits(a: seq<Symbol>, b: seq<Symbol>, nots: bool, p: Node -> bool)
    requires FairAll(a + b, nots, p)
    ensures FairAll(a, nots, p) && FairAll(b, nots, p)
  {
    assert forall k :: 0 <= k < |a| ==> a[k] == (a + b)[k];
    assert forall k :: 0 <= k < |b| ==> b[k] == (a + b)[|a| + k];
  }

  lemma {:induction false} DisjConsists(d: Disj, nots: bool, p: Node -> bool)
    requires FairAll(SpellDisj(d), nots, p)
    ensures Consists(TreeDisj(d), nots, p)
    decreases d, 1
  {
    FairSplits(SpellConj(d.first), SpellConjs(d.rest), nots, p);
    ConjConsists(d.first, nots, p);
    ConjsConsist(d.rest, nots, p);
  }

  lemma {:induction false} ConjsConsist(cs: seq<Conj>, nots: bool, p: Node -> bool)
    requires FairAll(SpellConjs(cs), nots, p)
    ensures forall x :: x in TreeConjs(cs) ==> Consists(x, nots, p)
    decreases cs, 0
  {
    if cs != [] {
      FairSplits([OrOp] + SpellConj(cs[0]), SpellConjs(cs[1..]), nots, p);
      FairSplits([OrOp], SpellConj(cs[0]), nots, p);
      ConjConsists(cs[0], nots, p);
      ConjsConsist(cs[1..], nots, p);
    }
  }

  lemma {:induction false} ConjConsists(c: Conj, nots: bool, p: Node -> bool)
    requires FairAll(SpellConj(c), nots, p)
    ensures Consists(TreeConj(c), nots, p)
    decreases c, 1
  {
    FairSplits(SpellNeg(c.first), SpellNegs(c.rest), nots, p);
    NegConsists(c.first, nots, p);
    NegsConsist(c.rest, nots, p);
  }

  lemma {:induction false} NegsConsist(ns: seq<More>, nots: bool, p: Node -> bool)
    requires FairAll(SpellNegs(ns), nots, p)
    ensures forall x :: x in TreeNegs(ns) ==> Consists(x, nots, p)
    decreases ns, 0
  {
    if ns != [] {
      FairSplits(SpellMore(ns[0]), SpellNegs(ns[1..]), nots, p);
      MoreConsists(ns[0], nots, p);
      NegsConsist(ns[1..], nots, p);
    }
  }

  lemma {:induction false} MoreConsists(m: More, nots: bool, p: Node -> bool)
    requires FairAll(SpellMore(m), nots, p)
    ensures Consists(TreeMore(m), nots, p)
    decreases m, 1
  {
    FairSplits(if m.written then [AndOp] else [], SpellNeg(m.operand), nots, p);
    NegConsists(m.operand, nots, p);
  }

  lemma {:induction false} NegConsists(n: Neg, nots: bool, p: Node -> bool)
    requires FairAll(SpellNeg(n), nots, p)
    ensures Consists(TreeNeg(n), nots, p)
    decreases n, 1
  {
    FairSplits(seq(n.nots, _ => NotOp), SpellPrim(n.operand), nots, p);
    assert n.nots > 0 ==> Fair(seq(n.nots, _ => NotOp)[0], nots, p);
    match n.operand
    case Word(node) => assert Fair(SpellPrim(n.operand)[0], nots, p);
    case Group(inner) =>
      FairSplits([OpenOp] + SpellDisj(inner), [CloseOp], nots, p);
      FairSplits([OpenOp], SpellDisj(inner), nots, p);
      DisjConsists(inner, nots, p);
  }

  /** What holds of every word of a text holds of every leaf of its tree, and without a NOT there is no Not. */
  lemma ParsedConsists(all: seq<Lexeme>, nots: bool, p: Node -> bool)
    requires Scanned(all) && Parse(all).Parsed?
    requires forall x :: x in all ==> Fair(x.symbol, nots, p)
    ensures Consists(Parse(all).value, nots, p)
  {
    var d := ParsedIsDerived(all);
    SpelledFits(all, 0, SpellDisj(d));
    forall k | 0 <= k < |SpellDisj(d)|
      ensures Fair(SpellDisj(d)[k], nots, p)
    {
      assert all[0 + k].symbol == SpellDisj(d)[k] && all[k] in all;
    }
    DisjConsists(d, nots, p);
  }

  // ----- The parser as the source runs it

  datatype Attempt<T> = Good(value: T) | Bad(error: Error)

  class DescentParser {
    const scanner: Scanner
    ghost const all: seq<Lexeme>
    ghost const fault: Option<Fault>
    ghost const starts: seq<nat>
    var current: Lexeme
    var previous: Lexeme
    ghost var at: nat

    /** The parser looks at the lexeme at `at`, and the scanner stands behind it. */
    ghost predicate Valid()
      reads this, scanner
    {
      && Scanned(all) && at < |all| == |starts| && scanner.Valid()
      && current == all[at]
      && previous == all[if at == 0 then 0 else at - 1]
      && (if at + 1 < |all| then scanner.index == starts[at + 1] else fault.None?)
      && forall k :: 0 <= k < |all| ==> Scans(scanner.steps, Lexed(all, fault), starts, k)
    }

    constructor (lexemes: Scanner, first: Lexeme)
      requires lexemes.Valid() && lexemes.steps[0].Read? && first == lexemes.steps[0].value.0
      requires first.symbol == End || lexemes.index == lexemes.steps[0].value.1
      ensures scanner == lexemes && Valid() && at == 0
      ensures Lexed(all, fault) == Lexing(lexemes.steps, 0)
    {
      scanner := lexemes;
      current, previous, at := first, first, 0;
      ghost var lexed := Lexing(lexemes.steps, 0);
      all, fault, starts := lexed.all, lexed.fault, Starts(lexemes.steps, 0);
      LexingScans(lexemes.steps, 0);
      assert Scans(lexemes.steps, lexed, Starts(lexemes.steps, 0), 0);
    }

    /** The outcome is the one the grammar gives, or the fault it runs into; the parser stands behind what it parsed. */
    ghost predicate Agrees<T(!new)>(r: Attempt<T>, outcome: Outcome<T>)
      reads this, scanner
    {
      match Told(outcome, all, fault)
      case Refused(error) => r == Bad(error)
      case Parsed(value, end) => r == Good(value) && at == end && Valid()
    }

    method Advance() returns (broken: Option<Fault>)
      requires Valid() && current.symbol != End
      modifies this, scanner
      ensures broken.None? ==> Valid() && at == old(at) + 1
      ensures broken.Some? ==> broken == fault && old(at) + 2 == |all|
    {
      assert Scans(scanner.steps, Lexed(all, fault), starts, at);
      assert Scans(scanner.steps, Lexed(all, fault), starts, at + 1);
      previous := current;
      var next := scanner.Next();
      if next.Broken? {
        return Some(next.fault);
      }
      current, at := next.value, at + 1;
      return None;
    }

    method ParseText() returns (r: Attempt<Node>)
      requires Valid() && at == 0
      modifies this, scanner
      ensures Agrees(r, Parse(all))
    {
      if current.symbol == End {
        return Bad(Empty);
      }
      r := ParseDisjunction(0);
      if r.Good? && current.symbol == CloseOp {
        return Bad(Unmatched(current));
      }
    }

    method ParseDisjunction(depth: nat) returns (r: Attempt<Node>)
      requires Valid()
      modifies this, scanner
      ensures Agrees(r, Disjunction(all, old(at), depth))
      decreases |all| - at, 5
    {
      var first := ParseConjunction(depth);
      if first.Bad? {
        return first;
      }
      var operands := ParseDisjuncts(first.value, depth);
      return if operands.Bad? then Bad(operands.error) else Good(Or(operands.value));
    }

    method ParseDisjuncts(first: Node, depth: nat) returns (r: Attempt<seq<Node>>)
      requires Valid()
      modifies this, scanner
      ensures Agrees(r, Extended([first], Disjuncts(all, old(at), depth)))
      decreases |all| - at, 5
    {
      var operands := [first];
      ghost var begin := at;
      while current.symbol == OrOp
        invariant Valid() && begin <= at
        invariant Extended([first], Disjuncts(all, begin, depth)) == Extended(operands, Disjuncts(all, at, depth))
        decreases |all| - at
      {
        NothingBehind(all, at, depth);
        var broken := Advance();
        if broken.Some? {
          return Bad(Unreadable(broken.value));
        }
        var next := ParseConjunction(depth);
        if next.Bad? {
          return Bad(next.error);
        }
        ExtendsTwice(operands, [next.value], Disjuncts(all, at, depth));
        operands := operands + [next.value];
      }
      assert operands + [] == operands;
      return Good(operands);
    }

    method ParseConjunction(depth: nat) returns (r: Attempt<Node>)
      requires Valid()
      modifies this, scanner
      ensures Agrees(r, Conjunction(all, old(at), depth))
      decreases |all| - at, 4
    {
      var first := ParseNegation(depth);
      if first.Bad? {
        return first;
      }
      var operands := ParseConjuncts(first.value, depth);
      return if operands.Bad? then Bad(operands.error) else Good(And(operands.value));
    }

    method ParseConjuncts(first: Node, depth: nat) returns (r: Attempt<seq<Node>>)
      requires Valid()
      modifies this, scanner
      ensures Agrees(r, Extended([first], Conjuncts(all, old(at), depth)))
      decreases |all| - at, 4
    {
      var operands := [first];
      ghost var begin := at;
      while current.symbol == AndOp || StartsOperand(current.symbol)
        invariant Valid() && begin <= at
        invariant Extended([first], Conjuncts(all, begin, depth)) == Extended(operands, Conjuncts(all, at, depth))
        decreases |all| - at
      {
        var next := ParseConjunct(depth);
        if next.Bad? {
          return Bad(next.error);
        }
        ExtendsTwice(operands, [next.value], Conjuncts(all, at, depth));
        operands := operands + [next.value];
      }
      assert operands + [] == operands;
      return Good(operands);
    }

    /** A further operand, behind its AND if one is written. */
    method ParseConjunct(depth: nat) returns (r: Attempt<Node>)
      requires Valid() && (current.symbol == AndOp || StartsOperand(current.symbol))
      modifies this, scanner
      ensures Agrees(r, Negation(all, if all[old(at)].symbol == AndOp then old(at) + 1 else old(at), depth))
      decreases |all| - at, 3, 1
    {
      if current.symbol == AndOp {
        NothingBehind(all, at, depth);
        var broken := Advance();
        if broken.Some? {
          return Bad(Unreadable(broken.value));
        }
      }
      r := ParseNegation(depth);
    }

    method ParseNegation(depth: nat) returns (r: Attempt<Node>)
      requires Valid()
      modifies this, scanner
      ensures Agrees(r, Negation(all, old(at), depth))
      decreases |all| - at, 3, 0
    {
      var negations := 0;
      while current.symbol == NotOp
        invariant Valid() && at == old(at) + negations
        invariant Nots(all, old(at)) == negations + Nots(all, at)
        decreases |all| - at
      {
        negations := negations + 1;
        var broken := Advance();
        if broken.Some? {
          return Bad(Unreadable(broken.value));
        }
      }
      var operand := ParsePrimary(depth);
      if operand.Bad? {
        return operand;
      }
      return Good(if negations % 2 == 1 then Not(operand.value) else operand.value);
    }

    method ParsePrimary(depth: nat) returns (r: Attempt<Node>)
      requires Valid()
      modifies this, scanner
      ensures Agrees(r, Primary(all, old(at), depth))
      decreases |all| - at, 2
    {
      var lexeme := current;
      if lexeme.symbol.Operand? {
        var broken := Advance();
        return if broken.Some? then Bad(Unreadable(broken.value)) else Good(lexeme.symbol.node);
      }
      if lexeme.symbol == OpenOp {
        r := ParseGroup(lexeme, depth + 1);
      } else if lexeme.symbol == End {
        r := Bad(ExpectedAfter(previous));
      } else {
        r := Bad(ExpectedBefore(lexeme));
      }
    }

    method ParseGroup(opening: Lexeme, depth: nat) returns (r: Attempt<Node>)
      requires Valid() && current == opening && opening.symbol == OpenOp
      modifies this, scanner
      ensures Agrees(r, Bracketed(all, old(at), depth))
      decreases |all| - at, 1
    {
      if depth > MAX_GROUP_DEPTH {
        return Bad(TooDeep(opening));
      }
      NothingBehind(all, at, depth);
      var broken := Advance();
      if broken.Some? {
        return Bad(Unreadable(broken.value));
      }
      DisjunctionStops(all, at, depth);
      r := ParseDisjunction(depth);
      if r.Bad? {
        return;
      }
      if current.symbol != CloseOp {
        return Bad(NeverClosed(opening));
      }
      broken := Advance();
      if broken.Some? {
        return Bad(Unreadable(broken.value));
      }
    }
  }

  /** At the end of the lexemes an operand is missing, whatever was expected. */
  lemma NothingBehind(all: seq<Lexeme>, i: nat, depth: nat)
    requires Scanned(all) && i < |all|
    ensures i + 2 == |all| ==> Negation(all, i + 1, depth) == Refused(ExpectedAfter(all[i]))
    ensures i + 2 == |all| ==> Conjunction(all, i + 1, depth) == Refused(ExpectedAfter(all[i]))
    ensures i + 2 == |all| ==> Disjunction(all, i + 1, depth) == Refused(ExpectedAfter(all[i]))
  {
  }

  /** Scanning as it goes, the parser finds what the whole text has. */
  method ParseSource(source: Source, defaults: Fields) returns (r: Attempt<Node>)
    ensures match QueryOf(source, defaults) case Refused(error) => r == Bad(error) case Parsed(node, _) => r == Good(node)
  {
    var scanner := new Scanner(source, defaults);
    var first := scanner.Next();
    if first.Broken? {
      return Bad(Unreadable(first.fault));
    }
    var parser := new DescentParser(scanner, first.value);
    r := parser.ParseText();
    if r.Good? {
      var canonical := Normalize(r.value);
      r := Good(canonical);
    }
  }

  lemma ExtendsTwice(a: seq<Node>, b: seq<Node>, more: Outcome<seq<Node>>)
    ensures Extended(a, Extended(b, more)) == Extended(a + b, more)
  {
    if more.Parsed? {
      assert a + (b + more.value) == a + b + more.value;
    }
  }
}
