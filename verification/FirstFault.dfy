/** A query that is refused is refused at its first fault (search/parser.py). */
module FirstFault {
  import opened Query
  import opened QueryScanner
  import opened Parser

  // ----- Reading a query once from left to right

  /** Whether an operand must come next, and the parentheses still open. */
  datatype Standing = Standing(expecting: bool, open: seq<Lexeme>)

  datatype Meeting = Goes(next: Standing) | Ends | Wrong(error: Error)

  /** What the lexeme at `i` does to a query that stands so before it. */
  function Meets(all: seq<Lexeme>, i: nat, st: Standing): Meeting
    requires i < |all|
  {
    var x := all[i];
    match x.symbol
    case Operand(_) => Goes(Standing(false, st.open))
    case NotOp => Goes(Standing(true, st.open))
    case OpenOp => if |st.open| >= MAX_GROUP_DEPTH then Wrong(TooDeep(x)) else Goes(Standing(true, st.open + [x]))
    case CloseOp =>
      if st.expecting then Wrong(ExpectedBefore(x))
      else if st.open == [] then Wrong(Unmatched(x))
      else Goes(Standing(false, st.open[..|st.open| - 1]))
    case End =>
      if st.expecting then Wrong(if i == 0 then Empty else ExpectedAfter(all[i - 1]))
      else if st.open != [] then Wrong(NeverClosed(st.open[|st.open| - 1]))
      else Ends
    case _ => if st.expecting then Wrong(ExpectedBefore(x)) else Goes(Standing(true, st.open))
  }

  /** The first thing wrong from `i` on, if anything is. */
  function Reads(all: seq<Lexeme>, i: nat, st: Standing): Option<Error>
    requires Scanned(all) && i < |all|
    decreases |all| - i
  {
    match Meets(all, i, st)
    case Wrong(error) => Some(error)
    case Ends => None
    case Goes(next) => Reads(all, i + 1, next)
  }

  const OUTSET: Standing := Standing(true, [])

  /** How a query stands after its first `k` lexemes, unless one of them is wrong. */
  function StandsAfter(all: seq<Lexeme>, k: nat): Option<Standing>
    requires k <= |all|
  {
    if k == 0 then Some(OUTSET)
    else
      match StandsAfter(all, k - 1)
      case None => None
      case Some(st) => if Meets(all, k - 1, st).Goes? then Some(Meets(all, k - 1, st).next) else None
  }

  // ----- The descent parser refuses what this reading refuses, for the same reason

  /** Parsing from `i` on, where the query stands as `from`, leaves it as `to` or finds what is wrong. */
  ghost predicate Simulates<T(!new)>(all: seq<Lexeme>, i: nat, from: Standing, outcome: Outcome<T>, to: Standing)
    requires Scanned(all) && i < |all|
  {
    match outcome
    case Parsed(_, at) => at < |all| && Reads(all, i, from) == Reads(all, at, to)
    case Refused(error) => Reads(all, i, from) == Some(error)
  }

  lemma {:induction false} DisjunctionReads(all: seq<Lexeme>, i: nat, open: seq<Lexeme>)
    requires Scanned(all) && i < |all| && (i == 0 ==> all[0].symbol != End) && |open| <= MAX_GROUP_DEPTH
    ensures Simulates(all, i, Standing(true, open), Disjunction(all, i, |open|), Standing(false, open))
    decreases |all| - i, 5
  {
    var first := Conjunction(all, i, |open|);
    ConjunctionReads(all, i, open);
    if first.Parsed? {
      DisjunctsRead(all, first.at, open);
    }
  }

  lemma {:induction false} DisjunctsRead(all: seq<Lexeme>, i: nat, open: seq<Lexeme>)
    requires Scanned(all) && 0 < i < |all| && |open| <= MAX_GROUP_DEPTH
    ensures Simulates(all, i, Standing(false, open), Disjuncts(all, i, |open|), Standing(false, open))
    decreases |all| - i, 5
  {
    if all[i].symbol == OrOp {
      var next := Conjunction(all, i + 1, |open|);
      ConjunctionReads(all, i + 1, open);
      if next.Parsed? {
        DisjunctsRead(all, next.at, open);
      }
    }
  }

  lemma {:induction false} ConjunctionReads(all: seq<Lexeme>, i: nat, open: seq<Lexeme>)
    requires Scanned(all) && i < |all| && (i == 0 ==> all[0].symbol != End) && |open| <= MAX_GROUP_DEPTH
    ensures Simulates(all, i, Standing(true, open), Conjunction(all, i, |open|), Standing(false, open))
    decreases |all| - i, 4
  {
    var first := Negation(all, i, |open|);
    NegationReads(all, i, open);
    if first.Parsed? {
      ConjunctsRead(all, first.at, open);
    }
  }

  lemma {:induction false} ConjunctsRead(all: seq<Lexeme>, i: nat, open: seq<Lexeme>)
    requires Scanned(all) && 0 < i < |all| && |open| <= MAX_GROUP_DEPTH
    ensures Simulates(all, i, Standing(false, open), Conjuncts(all, i, |open|), Standing(false, open))
    decreases |all| - i, 4
  {
    if all[i].symbol == AndOp || StartsOperand(all[i].symbol) {
      var from := if all[i].symbol == AndOp then i + 1 else i;
      var next := Negation(all, from, |open|);
      NegationReads(all, from, open);
      assert Reads(all, i, Standing(false, open)) == Reads(all, from, Standing(true, open));
      if next.Parsed? {
        ConjunctsRead(all, next.at, open);
      }
    }
  }

  lemma {:induction false} NotsRead(all: seq<Lexeme>, i: nat, open: seq<Lexeme>)
    requires Scanned(all) && i < |all|
    ensures Reads(all, i, Standing(true, open)) == Reads(all, i + Nots(all, i), Standing(true, open))
    decreases |all| - i
  {
    if all[i].symbol == NotOp {
      NotsRead(all, i + 1, open);
    }
  }

  lemma {:induction false} NegationReads(all: seq<Lexeme>, i: nat, open: seq<Lexeme>)
    requires Scanned(all) && i < |all| && (i == 0 ==> all[0].symbol != End) && |open| <= MAX_GROUP_DEPTH
    ensures Simulates(all, i, Standing(true, open), Negation(all, i, |open|), Standing(false, open))
    decreases |all| - i, 3
  {
    NotsRead(all, i, open);
    PrimaryReads(all, i + Nots(all, i), open);
  }

  lemma {:induction false} PrimaryReads(all: seq<Lexeme>, i: nat, open: seq<Lexeme>)
    requires Scanned(all) && i < |all| && (i == 0 ==> all[0].symbol != End) && |open| <= MAX_GROUP_DEPTH
    requires all[i].symbol != NotOp
    ensures Simulates(all, i, Standing(true, open), Primary(all, i, |open|), Standing(false, open))
    decreases |all| - i, 2
  {
    if all[i].symbol == OpenOp && |open| < MAX_GROUP_DEPTH {
      var inner := Disjunction(all, i + 1, |open| + 1);
      DisjunctionReads(all, i + 1, open + [all[i]]);
      DisjunctionStops(all, i + 1, |open| + 1);
      if inner.Parsed? {
        GroupEnds(all, inner.at, open, all[i]);
      }
    }
  }

  lemma GroupEnds(all: seq<Lexeme>, at: nat, open: seq<Lexeme>, opening: Lexeme)
    requires Scanned(all) && at < |all| && (all[at].symbol == CloseOp || all[at].symbol == End)
    ensures
      Meets(all, at, Standing(false, open + [opening]))
      == if all[at].symbol == CloseOp then Goes(Standing(false, open)) else Wrong(NeverClosed(opening))
  {
    assert (open + [opening])[..|open|] == open;
  }

  /** The parser and the reading from left to right refuse the same queries with the same error. */
  lemma ParseReads(all: seq<Lexeme>)
    requires Scanned(all)
    ensures match Parse(all) case Parsed(_, _) => Reads(all, 0, OUTSET) == None case Refused(error) => Reads(all, 0, OUTSET) == Some(error)
  {
    if all[0].symbol != End {
      DisjunctionReads(all, 0, []);
      DisjunctionStops(all, 0, 0);
    }
  }

  // ----- The first fault

  lemma {:induction false} ReadsFrom(all: seq<Lexeme>, k: nat)
    requires Scanned(all) && k < |all| && StandsAfter(all, k).Some?
    ensures Reads(all, 0, OUTSET) == Reads(all, k, StandsAfter(all, k).value)
  {
    if k > 0 {
      ReadsFrom(all, k - 1);
    }
  }

  lemma {:induction false} SameBeginning(all: seq<Lexeme>, other: seq<Lexeme>, k: nat)
    requires k <= |all| && k <= |other| && forall i :: 0 <= i < k ==> all[i] == other[i]
    ensures StandsAfter(all, k) == StandsAfter(other, k)
  {
    if k > 0 {
      SameBeginning(all, other, k - 1);
    }
  }

  /** The lexeme at `f` is wrong, and none before it is. */
  ghost predicate FirstWrong(all: seq<Lexeme>, f: nat, error: Error) {
    f < |all| && StandsAfter(all, f).Some? && Meets(all, f, StandsAfter(all, f).value) == Wrong(error)
  }

  lemma {:induction false} FindsWrong(all: seq<Lexeme>, k: nat) returns (f: nat)
    requires Scanned(all) && k < |all| && StandsAfter(all, k).Some? && Reads(all, k, StandsAfter(all, k).value).Some?
    ensures FirstWrong(all, f, Reads(all, k, StandsAfter(all, k).value).value)
    decreases |all| - k
  {
    f := k;
    if Meets(all, k, StandsAfter(all, k).value).Goes? {
      var next := k + 1;
      f := FindsWrong(all, next);
    }
  }

  function Closings(n: nat): seq<Lexeme> {
    if n == 0 then [Lexeme(End, "", 0)] else [Lexeme(CloseOp, ")", 0)] + Closings(n - 1)
  }

  lemma {:induction false} ClosingsAreRead(all: seq<Lexeme>, i: nat, open: seq<Lexeme>)
    requires Scanned(all) && i <= |all| && all[i..] == Closings(|open|)
    ensures i < |all| && Reads(all, i, Standing(false, open)) == None
    decreases |open|
  {
    assert all[i] == all[i..][0];
    if open != [] {
      assert all[i..][1..] == all[i + 1..];
      ClosingsAreRead(all, i + 1, open[..|open| - 1]);
    }
  }

  lemma {:induction false} ClosingsEnd(n: nat)
    ensures Scanned(Closings(n))
  {
    if n > 0 {
      ClosingsEnd(n - 1);
    }
  }

  /** What completes a query that stands so: a word if one is expected, and a parenthesis for each one open. */
  function Completion(st: Standing, word: Lexeme): seq<Lexeme> {
    (if st.expecting then [word] else []) + Closings(|st.open|)
  }

  /** Nothing wrong up to some point: the query could have been completed from there. */
  lemma {:induction false} CouldBeCompleted(all: seq<Lexeme>, k: nat, word: Lexeme)
    requires Scanned(all) && k < |all| && StandsAfter(all, k).Some? && word.symbol.Operand?
    ensures
      var whole := all[..k] + Completion(StandsAfter(all, k).value, word);
      Scanned(whole) && Parse(whole).Parsed?
  {
    var st := StandsAfter(all, k).value;
    var whole := all[..k] + Completion(st, word);
    ClosingsEnd(|st.open|);
    WholeIsScanned(all, k, Completion(st, word), whole);
    SameBeginning(all, whole, k);
    ReadsFrom(whole, k);
    var from := if st.expecting then k + 1 else k;
    assert whole[from..] == Closings(|st.open|);
    if st.expecting {
      assert whole[k] == word;
    }
    ClosingsAreRead(whole, from, st.open);
    ParseReads(whole);
  }

  lemma WholeIsScanned(all: seq<Lexeme>, k: nat, tail: seq<Lexeme>, whole: seq<Lexeme>)
    requires Scanned(all) && k < |all| && Scanned(tail) && whole == all[..k] + tail
    ensures Scanned(whole)
  {
    assert forall i :: 0 <= i < k ==> whole[i] == all[i];
    assert forall i :: k <= i < |whole| ==> whole[i] == tail[i - k];
  }

  /** Every query that begins with the same lexemes, the wrong one with them, is refused with the same error. */
  lemma CannotBeCompleted(all: seq<Lexeme>, f: nat, error: Error, other: seq<Lexeme>)
    requires Scanned(all) && FirstWrong(all, f, error)
    requires Scanned(other) && f < |other| && forall i :: 0 <= i <= f ==> other[i] == all[i]
    ensures Parse(other) == Refused(error)
  {
    SameBeginning(all, other, f);
    ReadsFrom(other, f);
    ParseReads(other);
  }

  /**
   * A query is refused at its first fault: the lexemes before it begin a query that parses, and with it they begin none;
   * and the error says what is wrong there.
   */
  lemma RefusedAtTheFirstFault(all: seq<Lexeme>, word: Lexeme, other: seq<Lexeme>) returns (f: nat)
    requires Scanned(all) && Parse(all).Refused? && word.symbol.Operand? && Scanned(other)
    ensures FirstWrong(all, f, Parse(all).error)
    ensures
      var whole := all[..f] + Completion(StandsAfter(all, f).value, word);
      Scanned(whole) && Parse(whole).Parsed?
    ensures f < |other| && (forall i :: 0 <= i <= f ==> other[i] == all[i]) ==> Parse(other) == Parse(all)
  {
    ParseReads(all);
    f := FindsWrong(all, 0);
    CouldBeCompleted(all, f, word);
    if f < |other| && forall i :: 0 <= i <= f ==> other[i] == all[i] {
      CannotBeCompleted(all, f, Parse(all).error, other);
    }
  }

  lemma WrongAtTheEnd(all: seq<Lexeme>, f: nat, error: Error)
    requires Scanned(all) && FirstWrong(all, f, error)
    ensures f == |all| - 1 <==> error.Empty? || error.ExpectedAfter? || error.NeverClosed?
  {
  }

  lemma {:induction false} NothingWrong(all: seq<Lexeme>, k: nat)
    requires Scanned(all) && Reads(all, 0, OUTSET) == None && k < |all|
    ensures StandsAfter(all, k).Some?
  {
    if k > 0 {
      NothingWrong(all, k - 1);
      ReadsFrom(all, k - 1);
    }
  }

  /**
   * The same of a query's text: it is refused for its first lexeme that is wrong, and for a piece that cannot be read only
   * when everything before that piece begins a query that parses.
   */
  lemma TextRefusedAtTheFirstFault(source: Source, defaults: Fields, word: Lexeme) returns (f: nat)
    requires QueryOf(source, defaults).Refused? && word.symbol.Operand?
    ensures
      var lexed, error := source.Lexemes(defaults), QueryOf(source, defaults).error;
      && f < |lexed.all| && StandsAfter(lexed.all, f).Some?
      && (if lexed.fault.Some? && f == |lexed.all| - 1 then error == Unreadable(lexed.fault.value)
          else FirstWrong(lexed.all, f, error))
      && var whole := lexed.all[..f] + Completion(StandsAfter(lexed.all, f).value, word);
         Scanned(whole) && Parse(whole).Parsed?
  {
    var all := source.Lexemes(defaults).all;
    ParseReads(all);
    ParseBlames(all);
    if Parse(all).Refused? {
      f := FindsWrong(all, 0);
      WrongAtTheEnd(all, f, Parse(all).error);
    } else {
      f := |all| - 1;
      NothingWrong(all, f);
    }
    CouldBeCompleted(all, f, word);
  }
}
