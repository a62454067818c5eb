/** The characters of a MATCH expression, and how FTS5 reads them (search/compile_fts5.py). */
module MatchText {
  import opened Query
  import opened CompileFts5
  import opened Spelling

  // ----- The text the compiler writes

  /** A run of the text: a space, a punctuation mark, a word, or a text between quotes. */
  datatype Piece = Gap | Mark(mark: char) | Word(word: string) | Quoted(text: string)

  function Doubled(text: string): string {
    if text == [] then [] else (if text[0] == '"' then ['"', '"'] else [text[0]]) + Doubled(text[1..])
  }

  function PieceText(piece: Piece): string {
    match piece
    case Gap => " "
    case Mark(mark) => [mark]
    case Word(word) => word
    case Quoted(text) => "\"" + Doubled(text) + "\""
  }

  function Text(pieces: seq<Piece>): string {
    if pieces == [] then [] else PieceText(pieces[0]) + Text(pieces[1..])
  }

  /** `title body`. */
  function NamesPieces(columns: seq<Field>): seq<Piece> {
    if columns == [] then []
    else if |columns| == 1 then [Word(NameOf(columns[0]))]
    else [Word(NameOf(columns[0]))] + ([Gap] + NamesPieces(columns[1..]))
  }

  /** `{title body} : `. */
  function ScopePieces(columns: seq<Field>): seq<Piece> {
    if columns == [] then [] else [Mark('{')] + (NamesPieces(columns) + [Mark('}'), Gap, Mark(':'), Gap])
  }

  /** `"words"` or `"word"*`. */
  function PhrasePieces(phrase: FtsPhrase): seq<Piece> {
    [Quoted(phrase.text)] + if phrase.isPrefix then [Mark('*')] else []
  }

  function PhrasesPieces(phrases: seq<FtsPhrase>): seq<Piece> {
    if phrases == [] then []
    else if |phrases| == 1 then PhrasePieces(phrases[0])
    else PhrasePieces(phrases[0]) + ([Gap] + PhrasesPieces(phrases[1..]))
  }

  /** `, 10)`. */
  function DistancePieces(distance: nat): seq<Piece> {
    [Mark(','), Gap, Word(Digits(distance)), Mark(')')]
  }

  function LeafPieces(leaf: FtsLeaf): seq<Piece> {
    match leaf
    case OnePhrase(columns, phrase) => ScopePieces(columns) + PhrasePieces(phrase)
    case NearGroup(columns, phrases, distance) =>
      ScopePieces(columns) + ([Word("NEAR"), Mark('(')] + (PhrasesPieces(phrases) + DistancePieces(distance)))
  }

  function TokPieces(tok: Tok): seq<Piece> {
    match tok
    case Literal(leaf) => LeafPieces(leaf)
    case Open => [Mark('(')]
    case Close => [Mark(')')]
    case AndWord => [Gap, Word("AND"), Gap]
    case OrWord => [Gap, Word("OR"), Gap]
    case NotWord => [Gap, Word("NOT"), Gap]
  }

  function Pieces(toks: seq<Tok>): seq<Piece> {
    if toks == [] then [] else TokPieces(toks[0]) + Pieces(toks[1..])
  }

  /** The MATCH expression as a string. */
  function Render(toks: seq<Tok>): string {
    Text(Pieces(toks))
  }

  // ----- FTS5's lexer

  datatype Raw = Str(text: string) | Bare(word: string) | Sym(mark: char)

  predicate IsBare(c: char) {
    || 'a' <= c <= 'z' || 'A' <= c <= 'Z' || '0' <= c <= '9' || c == '_' || c as int > 127 || c as int == 26
  }

  predicate IsSpace(c: char) {
    c == ' ' || c == '\t' || c == '\n' || c == '\r'
  }

  predicate IsMark(c: char) {
    c in {'(', ')', '{', '}', ':', ',', '+', '*', '-', '^'}
  }

  /** The contents of a string, up to a quote that is not doubled, and what follows it. */
  function ReadString(text: string): (r: Option<(string, string)>)
    ensures r.Some? ==> |r.value.1| < |text|
    decreases |text|
  {
    if text == [] then None
    else if text[0] != '"' then
      match ReadString(text[1..])
      case None => None
      case Some((s, rest)) => Some(([text[0]] + s, rest))
    else if |text| > 1 && text[1] == '"' then
      match ReadString(text[2..])
      case None => None
      case Some((s, rest)) => Some((['"'] + s, rest))
    else Some(([], text[1..]))
  }

  function BareLength(text: string): (n: nat)
    ensures n <= |text|
  {
    if text == [] || !IsBare(text[0]) then 0 else 1 + BareLength(text[1..])
  }

  function Prepend(raws: seq<Raw>, rest: Option<seq<Raw>>): Option<seq<Raw>> {
    match rest
    case None => None
    case Some(more) => Some(raws + more)
  }

  function Lex(text: string): Option<seq<Raw>>
    decreases |text|
  {
    if text == [] then Some([])
    else if IsSpace(text[0]) then Lex(text[1..])
    else if text[0] == '"' then
      match ReadString(text[1..])
      case None => None
      case Some((s, rest)) => Prepend([Str(s)], Lex(rest))
    else if IsBare(text[0]) then
      Prepend([Bare(text[..1 + BareLength(text[1..])])], Lex(text[1 + BareLength(text[1..])..]))
    else if IsMark(text[0]) then Prepend([Sym(text[0])], Lex(text[1..]))
    else None
  }

  // ----- FTS5's phrases, NEAR groups and column filters

  function ReadColumns(raws: seq<Raw>): (r: Option<(seq<Field>, seq<Raw>)>)
    ensures r.Some? ==> |r.value.1| < |raws|
  {
    if raws == [] then None
    else if raws[0] == Sym('}') then
      if |raws| > 1 && raws[1] == Sym(':') then Some(([], raws[2..])) else None
    else if !raws[0].Bare? then None
    else
      match (FieldNamed(raws[0].word), ReadColumns(raws[1..]))
      case (Some(field), Some((more, rest))) => Some(([field] + more, rest))
      case _ => None
  }

  function ReadPhrase(raws: seq<Raw>): (r: Option<(FtsPhrase, seq<Raw>)>)
    ensures r.Some? ==> |r.value.1| < |raws|
  {
    if raws == [] || !raws[0].Str? then None
    else if |raws| > 1 && raws[1] == Sym('*') then Some((FtsPhrase(raws[0].text, true), raws[2..]))
    else Some((FtsPhrase(raws[0].text, false), raws[1..]))
  }

  function ReadPhrases(raws: seq<Raw>): (r: (seq<FtsPhrase>, seq<Raw>))
    ensures |r.1| <= |raws|
    decreases |raws|
  {
    match ReadPhrase(raws)
    case None => ([], raws)
    case Some((phrase, rest)) =>
      var (more, last) := ReadPhrases(rest);
      ([phrase] + more, last)
  }

  function ReadUnscoped(columns: seq<Field>, raws: seq<Raw>): (r: Option<(FtsLeaf, seq<Raw>)>)
    ensures r.Some? ==> |r.value.1| < |raws|
  {
    if |raws| > 1 && raws[0] == Bare("NEAR") && raws[1] == Sym('(') then
      var (phrases, rest) := ReadPhrases(raws[2..]);
      if |rest| > 2 && rest[0] == Sym(',') && rest[1].Bare? && rest[2] == Sym(')') then
        match ReadNumber(rest[1].word)
        case None => None
        case Some(distance) => Some((NearGroup(columns, phrases, distance), rest[3..]))
      else None
    else
      match ReadPhrase(raws)
      case None => None
      case Some((phrase, rest)) => Some((OnePhrase(columns, phrase), rest))
  }

  function ReadLeaf(raws: seq<Raw>): (r: Option<(FtsLeaf, seq<Raw>)>)
    ensures r.Some? ==> |r.value.1| < |raws|
  {
    if raws != [] && raws[0] == Sym('{') then
      match ReadColumns(raws[1..])
      case None => None
      case Some((columns, rest)) => ReadUnscoped(columns, rest)
    else ReadUnscoped([], raws)
  }

  function AsOperator(raw: Raw): Option<Tok> {
    match raw
    case Sym(mark) => if mark == '(' then Some(Open) else if mark == ')' then Some(Close) else None
    case Bare(word) =>
      if word == "AND" then Some(AndWord) else if word == "OR" then Some(OrWord) else if word == "NOT" then Some(NotWord) else None
    case Str(_) => None
  }

  function Group(raws: seq<Raw>): Option<seq<Tok>>
    decreases |raws|
  {
    if raws == [] then Some([])
    else
      var (tok, rest) :=
        match AsOperator(raws[0])
        case Some(operator) => (Some(operator), raws[1..])
        case None =>
          match ReadLeaf(raws)
          case Some((leaf, rest)) => (Some(Literal(leaf)), rest)
          case None => (None, raws[1..]);
      match (tok, Group(rest))
      case (Some(first), Some(more)) => Some([first] + more)
      case _ => None
  }

  /** The whole text read as FTS5 reads it: None unless all of it is one expression. */
  function ReadText(text: string): Option<Fts> {
    match Lex(text)
    case None => None
    case Some(raws) =>
      match Group(raws)
      case None => None
      case Some(toks) =>
        match ReadOr(toks)
        case Some((tree, rest)) => if rest == [] then Some(tree) else None
        case None => None
  }

  // ----- The lexer undoes the text

  function RawOf(piece: Piece): seq<Raw> {
    match piece
    case Gap => []
    case Mark(mark) => [Sym(mark)]
    case Word(word) => [Bare(word)]
    case Quoted(text) => [Str(text)]
  }

  function RawsOf(pieces: seq<Piece>): seq<Raw> {
    if pieces == [] then [] else RawOf(pieces[0]) + RawsOf(pieces[1..])
  }

  ghost predicate Readable(piece: Piece) {
    match piece
    case Gap => true
    case Mark(mark) => IsMark(mark)
    case Word(word) => word != [] && AllBare(word)
    case Quoted(_) => true
  }

  /** Two words, or two quoted texts, side by side would run together. */
  predicate Apart(a: Piece, b: Piece) {
    !(a.Word? && b.Word?) && !(a.Quoted? && b.Quoted?)
  }

  ghost predicate Fits(pieces: seq<Piece>) {
    && (forall i :: 0 <= i < |pieces| ==> Readable(pieces[i]))
    && (forall i :: 0 < i < |pieces| ==> Apart(pieces[i - 1], pieces[i]))
  }

  lemma {:induction false} StringStep(piece: string, more: string, read: string, rest: string)
    requires ReadString(more) == Some((read, rest))
    requires (|piece| == 1 && piece[0] != '"') || piece == ['"', '"']
    ensures ReadString(piece + more) == Some(([piece[0]] + read, rest))
  {
    if |piece| == 1 {
      assert (piece + more)[1..] == more;
    } else {
      assert (piece + more)[2..] == more;
    }
  }

  /** A text with its quotes doubled is read back whole, up to the quote that ends it. */
  lemma {:induction false} StringReadsBack(text: string, tail: string, rest: string)
    requires tail == "\"" + rest && (rest == [] || rest[0] != '"')
    ensures ReadString(Doubled(text) + tail) == Some((text, rest))
  {
    if text == [] {
      assert Doubled(text) + tail == tail && tail[1..] == rest;
    } else {
      var (piece, others) := (if text[0] == '"' then ['"', '"'] else [text[0]], text[1..]);
      StringReadsBack(others, tail, rest);
      StringStep(piece, Doubled(others) + tail, others, rest);
      PieceGoesOn(piece, Doubled(others), tail);
      assert [text[0]] + others == text;
    }
  }

  lemma {:induction false} PieceGoesOn(piece: string, others: string, tail: string)
    ensures piece + others + tail == piece + (others + tail)
  {
  }

  ghost predicate AllBare(word: string) {
    forall i :: 0 <= i < |word| ==> IsBare(word[i])
  }

  lemma {:induction false} BareEnds(word: string, rest: string)
    requires AllBare(word) && (rest == [] || !IsBare(rest[0]))
    ensures BareLength(word + rest) == |word|
  {
    if word == [] {
      assert word + rest == rest;
    } else {
      assert (word + rest)[1..] == word[1..] + rest;
      BareEnds(word[1..], rest);
    }
  }

  lemma {:induction false} QuotedIs(text: string, rest: string)
    ensures PieceText(Quoted(text)) + rest == "\"" + (Doubled(text) + ("\"" + rest))
  {
    var doubled := Doubled(text);
    assert "\"" + doubled + "\"" + rest == "\"" + (doubled + ("\"" + rest));
  }

  lemma {:induction false} LexString(text: string, rest: string)
    requires rest == [] || rest[0] != '"'
    ensures Lex(PieceText(Quoted(text)) + rest) == Prepend([Str(text)], Lex(rest))
  {
    QuotedIs(text, rest);
    StringReadsBack(text, "\"" + rest, rest);
    LexQuote(Doubled(text) + ("\"" + rest), text, rest);
  }

  lemma {:induction false} LexQuote(inner: string, text: string, rest: string)
    requires ReadString(inner) == Some((text, rest))
    ensures Lex("\"" + inner) == Prepend([Str(text)], Lex(rest))
  {
    assert ("\"" + inner)[1..] == inner;
  }

  lemma {:induction false} LexBare(text: string, n: nat)
    requires text != [] && IsBare(text[0]) && n == 1 + BareLength(text[1..])
    ensures Lex(text) == Prepend([Bare(text[..n])], Lex(text[n..]))
  {
  }

  lemma {:induction false} LexWord(word: string, rest: string)
    requires word != [] && AllBare(word) && (rest == [] || !IsBare(rest[0]))
    ensures Lex(word + rest) == Prepend([Bare(word)], Lex(rest))
  {
    var text := word + rest;
    assert text[0] == word[0] && text[1..] == word[1..] + rest;
    BareEnds(word[1..], rest);
    assert text[..|word|] == word && text[|word|..] == rest;
    LexBare(text, |word|);
  }

  lemma {:induction false} LexMark(c: char, rest: string)
    requires IsMark(c)
    ensures Lex([c] + rest) == Prepend([Sym(c)], Lex(rest))
  {
    assert ([c] + rest)[1..] == rest;
  }

  lemma {:induction false} LexSpace(rest: string)
    ensures Lex(" " + rest) == Lex(rest)
  {
    assert (" " + rest)[1..] == rest;
  }

  /** What a piece's text starts with. */
  lemma {:induction false} PieceStarts(piece: Piece)
    requires Readable(piece)
    ensures PieceText(piece) != []
    ensures !piece.Quoted? ==> PieceText(piece)[0] != '"'
    ensures !piece.Word? ==> !IsBare(PieceText(piece)[0])
  {
  }

  /** What follows a piece does not run together with it. */
  ghost predicate Follows(first: Piece, rest: string) {
    rest == [] || ((first.Word? ==> !IsBare(rest[0])) && (first.Quoted? ==> rest[0] != '"'))
  }

  lemma {:induction false} TextFollows(pieces: seq<Piece>)
    requires Fits(pieces) && pieces != []
    ensures Fits(pieces[1..]) && Follows(pieces[0], Text(pieces[1..]))
  {
    var later := pieces[1..];
    assert forall i :: 0 < i < |later| ==> later[i - 1] == pieces[i] && later[i] == pieces[i + 1];
    if later != [] {
      PieceStarts(pieces[1]);
      assert Apart(pieces[0], pieces[1]);
      assert Text(later)[0] == PieceText(pieces[1])[0];
    }
  }

  lemma {:induction false} LexFirst(first: Piece, rest: string)
    requires Readable(first) && Follows(first, rest)
    ensures Lex(PieceText(first) + rest) == Prepend(RawOf(first), Lex(rest))
  {
    match first
    case Gap =>
      LexSpace(rest);
      PrependNothing(Lex(rest));
    case Mark(mark) => LexMark(mark, rest);
    case Word(word) => LexWord(word, rest);
    case Quoted(text) => LexString(text, rest);
  }

  lemma {:induction false} PrependNothing(raws: Option<seq<Raw>>)
    ensures Prepend([], raws) == raws
  {
    if raws.Some? {
      assert [] + raws.value == raws.value;
    }
  }

  /** The lexer finds the marks, words and quoted texts that were written. */
  lemma {:induction false} LexReadsPieces(pieces: seq<Piece>)
    requires Fits(pieces)
    ensures Lex(Text(pieces)) == Some(RawsOf(pieces))
  {
    if pieces == [] {
      assert Text(pieces) == [];
    } else {
      TextFollows(pieces);
      LexReadsPieces(pieces[1..]);
      LexFirst(pieces[0], Text(pieces[1..]));
    }
  }

  lemma {:induction false} NamesAreBare(field: Field)
    ensures NameOf(field) != [] && AllBare(NameOf(field)) && FieldNamed(NameOf(field)) == Some(field)
  {
  }

  lemma {:induction false} DigitsAreBare(n: nat)
    ensures Digits(n) != [] && AllBare(Digits(n))
  {
    if n >= 10 {
      DigitsAreBare(n / 10);
    }
  }

  // ----- FTS5's grammar undoes the marks and words

  lemma {:induction false} RawsOfConcat(a: seq<Piece>, b: seq<Piece>)
    ensures RawsOf(a + b) == RawsOf(a) + RawsOf(b)
  {
    if a == [] {
      assert a + b == b;
    } else {
      RawsOfConcat(a[1..], b);
      assert (a + b)[1..] == a[1..] + b;
      assert RawOf(a[0]) + (RawsOf(a[1..]) + RawsOf(b)) == RawsOf(a) + RawsOf(b);
    }
  }

  function SpellNames(columns: seq<Field>): seq<Raw> {
    if columns == [] then [] else [Bare(NameOf(columns[0]))] + SpellNames(columns[1..])
  }

  lemma {:induction false} NamesSpell(columns: seq<Field>)
    ensures RawsOf(NamesPieces(columns)) == SpellNames(columns)
  {
    if |columns| > 1 {
      NamesSpell(columns[1..]);
      RawsOfConcat([Gap], NamesPieces(columns[1..]));
      RawsOfConcat([Word(NameOf(columns[0]))], [Gap] + NamesPieces(columns[1..]));
    }
  }

  function SpellPhrase(phrase: FtsPhrase): seq<Raw> {
    [Str(phrase.text)] + if phrase.isPrefix then [Sym('*')] else []
  }

  function SpellPhrases(phrases: seq<FtsPhrase>): seq<Raw> {
    if phrases == [] then [] else SpellPhrase(phrases[0]) + SpellPhrases(phrases[1..])
  }

  lemma {:induction false} PhraseSpells(phrase: FtsPhrase)
    ensures RawsOf(PhrasePieces(phrase)) == SpellPhrase(phrase)
  {
    RawsOfConcat([Quoted(phrase.text)], if phrase.isPrefix then [Mark('*')] else []);
  }

  lemma {:induction false} PhrasesSpell(phrases: seq<FtsPhrase>)
    ensures RawsOf(PhrasesPieces(phrases)) == SpellPhrases(phrases)
  {
    if phrases != [] {
      PhraseSpells(phrases[0]);
      if |phrases| == 1 {
        assert SpellPhrases(phrases[1..]) == [];
      } else {
        PhrasesSpell(phrases[1..]);
        RawsOfConcat([Gap], PhrasesPieces(phrases[1..]));
        RawsOfConcat(PhrasePieces(phrases[0]), [Gap] + PhrasesPieces(phrases[1..]));
      }
    }
  }

  lemma {:induction false} ColumnsEnd(raws: seq<Raw>, rest: seq<Raw>)
    requires raws == [Sym('}'), Sym(':')] + rest
    ensures ReadColumns(raws) == Some(([], rest))
  {
    assert raws[2..] == rest;
  }

  lemma {:induction false} ColumnReads(column: Field, columns: seq<Field>, more: seq<Raw>, rest: seq<Raw>, raws: seq<Raw>)
    requires ReadColumns(more) == Some((columns, rest)) && FieldNamed(NameOf(column)) == Some(column)
    requires raws == [Bare(NameOf(column))] + more
    ensures ReadColumns(raws) == Some(([column] + columns, rest))
  {
    assert raws[1..] == more;
  }

  lemma {:induction false} ColumnsReadBack(columns: seq<Field>, tail: seq<Raw>, rest: seq<Raw>, raws: seq<Raw>)
    requires tail == [Sym('}'), Sym(':')] + rest && raws == SpellNames(columns) + tail
    ensures ReadColumns(raws) == Some((columns, rest))
  {
    if columns == [] {
      assert raws == tail;
      ColumnsEnd(raws, rest);
    } else {
      var more := SpellNames(columns[1..]) + tail;
      NamesAreBare(columns[0]);
      ColumnsReadBack(columns[1..], tail, rest, more);
      assert raws == [Bare(NameOf(columns[0]))] + more;
      ColumnReads(columns[0], columns[1..], more, rest, raws);
      assert [columns[0]] + columns[1..] == columns;
    }
  }

  ghost predicate NoStar(rest: seq<Raw>) {
    rest == [] || rest[0] != Sym('*')
  }

  lemma {:induction false} PhraseReadsBack(phrase: FtsPhrase, rest: seq<Raw>, raws: seq<Raw>)
    requires NoStar(rest) && raws == SpellPhrase(phrase) + rest
    ensures ReadPhrase(raws) == Some((phrase, rest))
  {
    if phrase.isPrefix {
      assert raws[2..] == rest;
    } else {
      assert raws[1..] == rest;
    }
  }

  lemma {:induction false} PhraseReads(phrase: FtsPhrase, phrases: seq<FtsPhrase>, more: seq<Raw>, rest: seq<Raw>, raws: seq<Raw>)
    requires ReadPhrases(more) == (phrases, rest) && ReadPhrase(raws) == Some((phrase, more))
    ensures ReadPhrases(raws) == ([phrase] + phrases, rest)
  {
  }

  lemma {:induction false} PhrasesStart(phrases: seq<FtsPhrase>, rest: seq<Raw>, raws: seq<Raw>)
    requires NoStar(rest) && raws == SpellPhrases(phrases) + rest
    ensures NoStar(raws)
  {
    if phrases == [] {
      assert raws == rest;
    }
  }

  lemma {:induction false} PhrasesReadBack(phrases: seq<FtsPhrase>, rest: seq<Raw>, raws: seq<Raw>)
    requires rest != [] && !rest[0].Str? && NoStar(rest) && raws == SpellPhrases(phrases) + rest
    ensures ReadPhrases(raws) == (phrases, rest)
  {
    if phrases == [] {
      assert raws == rest && ReadPhrase(raws) == None;
    } else {
      var more := SpellPhrases(phrases[1..]) + rest;
      PhrasesReadBack(phrases[1..], rest, more);
      PhrasesStart(phrases[1..], rest, more);
      assert raws == SpellPhrase(phrases[0]) + more;
      PhraseReadsBack(phrases[0], more, raws);
      PhraseReads(phrases[0], phrases[1..], more, rest, raws);
      assert [phrases[0]] + phrases[1..] == phrases;
    }
  }

  function SpellDistance(distance: nat): seq<Raw> {
    [Sym(','), Bare(Digits(distance)), Sym(')')]
  }

  function SpellUnscoped(leaf: FtsLeaf): seq<Raw> {
    match leaf
    case OnePhrase(_, phrase) => SpellPhrase(phrase)
    case NearGroup(_, phrases, distance) => [Bare("NEAR"), Sym('(')] + (SpellPhrases(phrases) + SpellDistance(distance))
  }

  function SpellScope(columns: seq<Field>): seq<Raw> {
    if columns == [] then [] else [Sym('{')] + (SpellNames(columns) + [Sym('}'), Sym(':')])
  }

  lemma {:induction false} ScopeSpells(columns: seq<Field>)
    ensures RawsOf(ScopePieces(columns)) == SpellScope(columns)
  {
    if columns != [] {
      var end := [Mark('}'), Gap, Mark(':'), Gap];
      NamesSpell(columns);
      ScopeEndSpells();
      RawsOfConcat(NamesPieces(columns), end);
      RawsOfConcat([Mark('{')], NamesPieces(columns) + end);
    }
  }

  lemma {:induction false} ScopeEndSpells()
    ensures RawsOf([Mark('}'), Gap, Mark(':'), Gap]) == [Sym('}'), Sym(':')]
  {
    RawsOfConcat([Mark('}')], [Gap, Mark(':'), Gap]);
    RawsOfConcat([Gap], [Mark(':'), Gap]);
    RawsOfConcat([Mark(':')], [Gap]);
    assert [Mark('}')] + [Gap, Mark(':'), Gap] == [Mark('}'), Gap, Mark(':'), Gap];
    assert [Gap] + [Mark(':'), Gap] == [Gap, Mark(':'), Gap] && [Mark(':')] + [Gap] == [Mark(':'), Gap];
  }

  lemma {:induction false} DistanceSpells(distance: nat)
    ensures RawsOf(DistancePieces(distance)) == SpellDistance(distance)
  {
    var word := Word(Digits(distance));
    RawsOfConcat([Mark(',')], [Gap, word, Mark(')')]);
    RawsOfConcat([Gap], [word, Mark(')')]);
    RawsOfConcat([word], [Mark(')')]);
    assert [Mark(',')] + [Gap, word, Mark(')')] == DistancePieces(distance);
    assert [Gap] + [word, Mark(')')] == [Gap, word, Mark(')')] && [word] + [Mark(')')] == [word, Mark(')')];
  }

  lemma {:induction false} NearSpells(phrases: seq<FtsPhrase>, distance: nat)
    ensures
      RawsOf([Word("NEAR"), Mark('(')] + (PhrasesPieces(phrases) + DistancePieces(distance)))
      == [Bare("NEAR"), Sym('(')] + (SpellPhrases(phrases) + SpellDistance(distance))
  {
    PhrasesSpell(phrases);
    DistanceSpells(distance);
    RawsOfConcat(PhrasesPieces(phrases), DistancePieces(distance));
    OpeningSpells();
    RawsOfConcat([Word("NEAR"), Mark('(')], PhrasesPieces(phrases) + DistancePieces(distance));
  }

  lemma {:induction false} OpeningSpells()
    ensures RawsOf([Word("NEAR"), Mark('(')]) == [Bare("NEAR"), Sym('(')]
  {
    RawsOfConcat([Word("NEAR")], [Mark('(')]);
    assert [Word("NEAR")] + [Mark('(')] == [Word("NEAR"), Mark('(')];
  }

  lemma {:induction false} LeafSpells(leaf: FtsLeaf)
    ensures RawsOf(LeafPieces(leaf)) == SpellScope(leaf.columns) + SpellUnscoped(leaf)
  {
    ScopeSpells(leaf.columns);
    match leaf
    case OnePhrase(columns, phrase) =>
      PhraseSpells(phrase);
      RawsOfConcat(ScopePieces(columns), PhrasePieces(phrase));
    case NearGroup(columns, phrases, distance) =>
      NearSpells(phrases, distance);
      RawsOfConcat(ScopePieces(columns), [Word("NEAR"), Mark('(')] + (PhrasesPieces(phrases) + DistancePieces(distance)));
  }

  lemma {:induction false} NearReads(columns: seq<Field>, phrases: seq<FtsPhrase>, distance: nat, end: seq<Raw>,
                                     rest: seq<Raw>, raws: seq<Raw>)
    requires |raws| > 1 && raws[0] == Bare("NEAR") && raws[1] == Sym('(') && ReadPhrases(raws[2..]) == (phrases, end)
    requires end == SpellDistance(distance) + rest && ReadNumber(Digits(distance)) == Some(distance)
    ensures ReadUnscoped(columns, raws) == Some((NearGroup(columns, phrases, distance), rest))
  {
    assert end[3..] == rest && end[1] == Bare(Digits(distance));
  }

  lemma {:induction false} NearReadsBack(columns: seq<Field>, phrases: seq<FtsPhrase>, distance: nat,
                                         rest: seq<Raw>, raws: seq<Raw>)
    requires raws == [Bare("NEAR"), Sym('(')] + (SpellPhrases(phrases) + SpellDistance(distance)) + rest
    ensures ReadUnscoped(columns, raws) == Some((NearGroup(columns, phrases, distance), rest))
  {
    var end := SpellDistance(distance) + rest;
    assert raws[2..] == SpellPhrases(phrases) + end;
    PhrasesReadBack(phrases, end, raws[2..]);
    NumberReadsBack(distance);
    NearReads(columns, phrases, distance, end, rest, raws);
  }

  lemma {:induction false} UnscopedReadsBack(leaf: FtsLeaf, rest: seq<Raw>, raws: seq<Raw>)
    requires NoStar(rest) && raws == SpellUnscoped(leaf) + rest
    ensures ReadUnscoped(leaf.columns, raws) == Some((leaf, rest))
  {
    match leaf
    case OnePhrase(columns, phrase) => PhraseReadsBack(phrase, rest, raws);
    case NearGroup(columns, phrases, distance) => NearReadsBack(columns, phrases, distance, rest, raws);
  }

  lemma {:induction false} ScopedReads(leaf: FtsLeaf, unscoped: seq<Raw>, rest: seq<Raw>, raws: seq<Raw>)
    requires raws != [] && raws[0] == Sym('{') && ReadColumns(raws[1..]) == Some((leaf.columns, unscoped))
    requires ReadUnscoped(leaf.columns, unscoped) == Some((leaf, rest))
    ensures ReadLeaf(raws) == Some((leaf, rest))
  {
  }

  lemma {:induction false} UnscopedReads(leaf: FtsLeaf, rest: seq<Raw>, raws: seq<Raw>)
    requires raws != [] && raws[0] != Sym('{') && leaf.columns == [] && ReadUnscoped([], raws) == Some((leaf, rest))
    ensures ReadLeaf(raws) == Some((leaf, rest))
  {
  }

  lemma {:induction false} ScopedSplits(leaf: FtsLeaf, rest: seq<Raw>, tail: seq<Raw>, raws: seq<Raw>)
    requires leaf.columns != [] && raws == SpellScope(leaf.columns) + SpellUnscoped(leaf) + rest
    requires tail == [Sym('}'), Sym(':')] + (SpellUnscoped(leaf) + rest)
    ensures raws != [] && raws[0] == Sym('{') && raws[1..] == SpellNames(leaf.columns) + tail
  {
    var (names, close, unscoped) := (SpellNames(leaf.columns), [Sym('}'), Sym(':')], SpellUnscoped(leaf) + rest);
    assert raws == [Sym('{')] + (names + close) + unscoped;
    assert raws == [Sym('{')] + (names + close + unscoped);
    assert names + close + unscoped == names + (close + unscoped);
  }

  lemma {:induction false} LeafReadsBack(leaf: FtsLeaf, rest: seq<Raw>, raws: seq<Raw>)
    requires NoStar(rest) && raws == SpellScope(leaf.columns) + SpellUnscoped(leaf) + rest
    ensures ReadLeaf(raws) == Some((leaf, rest))
  {
    var unscoped := SpellUnscoped(leaf) + rest;
    UnscopedReadsBack(leaf, rest, unscoped);
    if leaf.columns == [] {
      assert raws == unscoped;
      UnscopedReads(leaf, rest, raws);
    } else {
      ScopedReadsBack(leaf, rest, raws, unscoped);
    }
  }

  lemma {:induction false} ScopedReadsBack(leaf: FtsLeaf, rest: seq<Raw>, raws: seq<Raw>, unscoped: seq<Raw>)
    requires leaf.columns != [] && raws == SpellScope(leaf.columns) + SpellUnscoped(leaf) + rest
    requires unscoped == SpellUnscoped(leaf) + rest && ReadUnscoped(leaf.columns, unscoped) == Some((leaf, rest))
    ensures ReadLeaf(raws) == Some((leaf, rest))
  {
    var tail := [Sym('}'), Sym(':')] + unscoped;
    ScopedSplits(leaf, rest, tail, raws);
    ColumnsReadBack(leaf.columns, tail, unscoped, raws[1..]);
    ScopedReads(leaf, unscoped, rest, raws);
  }

  // ----- The whole expression

  function SpellTok(tok: Tok): seq<Raw> {
    match tok
    case Literal(leaf) => SpellScope(leaf.columns) + SpellUnscoped(leaf)
    case Open => [Sym('(')]
    case Close => [Sym(')')]
    case AndWord => [Bare("AND")]
    case OrWord => [Bare("OR")]
    case NotWord => [Bare("NOT")]
  }

  function Spell(toks: seq<Tok>): seq<Raw> {
    if toks == [] then [] else SpellTok(toks[0]) + Spell(toks[1..])
  }

  lemma {:induction false} WordSpells(word: string)
    ensures RawsOf([Gap, Word(word), Gap]) == [Bare(word)]
  {
    RawsOfConcat([Gap], [Word(word), Gap]);
    RawsOfConcat([Word(word)], [Gap]);
    assert [Gap] + [Word(word), Gap] == [Gap, Word(word), Gap] && [Word(word)] + [Gap] == [Word(word), Gap];
  }

  lemma {:induction false} TokSpells(tok: Tok)
    ensures RawsOf(TokPieces(tok)) == SpellTok(tok)
  {
    match tok
    case Literal(leaf) => LeafSpells(leaf);
    case Open =>
    case Close =>
    case AndWord => WordSpells("AND");
    case OrWord => WordSpells("OR");
    case NotWord => WordSpells("NOT");
  }

  lemma {:induction false} ToksSpell(toks: seq<Tok>)
    ensures RawsOf(Pieces(toks)) == Spell(toks)
  {
    if toks != [] {
      TokSpells(toks[0]);
      ToksSpell(toks[1..]);
      RawsOfConcat(TokPieces(toks[0]), Pieces(toks[1..]));
    }
  }

  lemma {:induction false} SpellStarts(toks: seq<Tok>)
    ensures NoStar(Spell(toks))
  {
    if toks != [] {
      assert Spell(toks)[0] == SpellTok(toks[0])[0];
    }
  }

  lemma {:induction false} GroupOperator(operator: Tok, toks: seq<Tok>, more: seq<Raw>, raws: seq<Raw>)
    requires raws != [] && AsOperator(raws[0]) == Some(operator) && raws[1..] == more && Group(more) == Some(toks)
    ensures Group(raws) == Some([operator] + toks)
  {
  }

  lemma {:induction false} GroupLeaf(leaf: FtsLeaf, toks: seq<Tok>, more: seq<Raw>, raws: seq<Raw>)
    requires raws != [] && AsOperator(raws[0]) == None && ReadLeaf(raws) == Some((leaf, more)) && Group(more) == Some(toks)
    ensures Group(raws) == Some([Literal(leaf)] + toks)
  {
  }

  lemma {:induction false} LeafStarts(leaf: FtsLeaf, more: seq<Raw>, raws: seq<Raw>)
    requires raws == SpellScope(leaf.columns) + SpellUnscoped(leaf) + more
    ensures raws != [] && AsOperator(raws[0]) == None
  {
  }

  lemma {:induction false} TokReads(first: Tok, toks: seq<Tok>, more: seq<Raw>, raws: seq<Raw>)
    requires Group(more) == Some(toks) && NoStar(more) && raws == SpellTok(first) + more
    ensures Group(raws) == Some([first] + toks)
  {
    if first.Literal? {
      LeafStarts(first.leaf, more, raws);
      LeafReadsBack(first.leaf, more, raws);
      GroupLeaf(first.leaf, toks, more, raws);
    } else {
      assert raws[1..] == more && AsOperator(raws[0]) == Some(first);
      GroupOperator(first, toks, more, raws);
    }
  }

  /** FTS5's grammar finds the tokens that were written. */
  lemma {:induction false} GroupReadsToks(toks: seq<Tok>, raws: seq<Raw>)
    requires raws == Spell(toks)
    ensures Group(raws) == Some(toks)
  {
    if toks != [] {
      GroupReadsToks(toks[1..], Spell(toks[1..]));
      SpellStarts(toks[1..]);
      TokReads(toks[0], toks[1..], Spell(toks[1..]), raws);
      assert [toks[0]] + toks[1..] == toks;
    }
  }

  // ----- The compiler never puts two leaves side by side

  ghost predicate Alternates(toks: seq<Tok>) {
    forall i :: 0 < i < |toks| ==> !(toks[i - 1].Literal? && toks[i].Literal?)
  }

  lemma {:induction false} AlternatesAround(a: seq<Tok>, tok: Tok, b: seq<Tok>)
    requires Alternates(a) && Alternates(b) && !tok.Literal?
    ensures Alternates(a + [tok] + b)
  {
    var all := a + [tok] + b;
    forall i | 0 < i < |all|
      ensures !(all[i - 1].Literal? && all[i].Literal?)
    {
      if i < |a| {
        assert all[i - 1] == a[i - 1] && all[i] == a[i];
      } else if i > |a| + 1 {
        assert all[i - 1] == b[i - |a| - 2] && all[i] == b[i - |a| - 1];
      }
    }
  }

  lemma {:induction false} BracketsAlternate(toks: seq<Tok>)
    requires Alternates(toks)
    ensures Alternates([Open] + toks + [Close])
  {
    AlternatesAround([], Open, toks);
    AlternatesAround([Open] + toks, Close, []);
    assert [] + [Open] + toks == [Open] + toks && [Open] + toks + [Close] + [] == [Open] + toks + [Close];
  }

  ghost predicate AllAlternate(parts: seq<seq<Tok>>) {
    forall i :: 0 <= i < |parts| ==> Alternates(parts[i])
  }

  lemma {:induction false} JoinAlternates(parts: seq<seq<Tok>>, word: Tok)
    requires AllAlternate(parts) && !word.Literal?
    ensures Alternates(Join(parts, word))
  {
    if |parts| > 1 {
      JoinAlternates(parts[1..], word);
      AlternatesAround(parts[0], word, Join(parts[1..], word));
    }
  }

  lemma {:induction false} CompileAlternates(node: Node)
    requires Compile(node).Some?
    ensures Alternates(Compile(node).value)
    decreases Size(node), 1
  {
    match node
    case Lone(_) =>
    case Near(_, _, _) =>
    case Not(_) =>
    case Or(operands) =>
      EachAlternates(operands);
      JoinAlternates(CompileEach(operands).value, OrWord);
      BracketsAlternate(Join(CompileEach(operands).value, OrWord));
    case And(operands) =>
      SplitByNot(operands);
      EachAlternates(Plain(operands));
      EachAlternates(Negated(operands));
      var (kept, removed) := (CompileEach(Plain(operands)).value, CompileEach(Negated(operands)).value);
      JoinAlternates(kept, AndWord);
      BracketsAlternate(Join(kept, AndWord));
      var included := if |kept| == 1 then kept[0] else [Open] + Join(kept, AndWord) + [Close];
      if removed != [] {
        AlternatesAround(included, NotWord, removed[0]);
      }
  }

  lemma {:induction false} EachAlternates(nodes: seq<Node>)
    requires CompileEach(nodes).Some?
    ensures AllAlternate(CompileEach(nodes).value)
    decreases SizeAll(nodes), 2, |nodes|
  {
    if nodes != [] {
      CompileAlternates(nodes[0]);
      EachAlternates(nodes[1..]);
      BracketsAlternate(Compile(nodes[0]).value);
    }
  }

  // ----- The pieces of an expression stay apart

  lemma {:induction false} FitsConcat(a: seq<Piece>, b: seq<Piece>)
    requires Fits(a) && Fits(b) && (a == [] || b == [] || Apart(a[|a| - 1], b[0]))
    ensures Fits(a + b)
  {
    var all := a + b;
    forall i | 0 < i < |all|
      ensures Apart(all[i - 1], all[i])
    {
      if i < |a| {
        assert all[i - 1] == a[i - 1] && all[i] == a[i];
      } else if i > |a| {
        assert all[i - 1] == b[i - |a| - 1] && all[i] == b[i - |a|];
      }
    }
  }

  /** A leaf's pieces do not start or end with a gap, and end with a mark or a quoted text. */
  ghost predicate IsLeafText(pieces: seq<Piece>) {
    && Fits(pieces) && pieces != [] && !pieces[0].Gap?
    && (pieces[|pieces| - 1].Mark? || pieces[|pieces| - 1].Quoted?)
  }

  lemma {:induction false} NamesFit(columns: seq<Field>)
    requires columns != []
    ensures
      var pieces := NamesPieces(columns);
      Fits(pieces) && pieces != [] && pieces[0].Word? && pieces[|pieces| - 1].Word?
  {
    NamesAreBare(columns[0]);
    if |columns| > 1 {
      NamesFit(columns[1..]);
      FitsConcat([Gap], NamesPieces(columns[1..]));
      FitsConcat([Word(NameOf(columns[0]))], [Gap] + NamesPieces(columns[1..]));
    }
  }

  lemma {:induction false} ScopeFits(columns: seq<Field>)
    ensures Fits(ScopePieces(columns))
    ensures columns != [] ==> ScopePieces(columns)[0] == Mark('{') && ScopePieces(columns)[|ScopePieces(columns)| - 1] == Gap
  {
    if columns != [] {
      var end := [Mark('}'), Gap, Mark(':'), Gap];
      NamesFit(columns);
      FitsConcat(NamesPieces(columns), end);
      FitsConcat([Mark('{')], NamesPieces(columns) + end);
    }
  }

  lemma {:induction false} PhrasesFit(phrases: seq<FtsPhrase>)
    ensures
      var pieces := PhrasesPieces(phrases);
      Fits(pieces) && (pieces != [] ==> pieces[0].Quoted? && !pieces[|pieces| - 1].Word? && !pieces[|pieces| - 1].Gap?)
  {
    if |phrases| > 1 {
      PhrasesFit(phrases[1..]);
      FitsConcat([Gap], PhrasesPieces(phrases[1..]));
      FitsConcat(PhrasePieces(phrases[0]), [Gap] + PhrasesPieces(phrases[1..]));
    }
  }

  lemma {:induction false} NearFits(phrases: seq<FtsPhrase>, distance: nat)
    ensures
      var pieces := [Word("NEAR"), Mark('(')] + (PhrasesPieces(phrases) + DistancePieces(distance));
      IsLeafText(pieces)
  {
    PhrasesFit(phrases);
    DigitsAreBare(distance);
    FitsConcat(PhrasesPieces(phrases), DistancePieces(distance));
    assert Readable(Word("NEAR"));
    FitsConcat([Word("NEAR"), Mark('(')], PhrasesPieces(phrases) + DistancePieces(distance));
  }

  lemma {:induction false} LeafFits(leaf: FtsLeaf)
    ensures IsLeafText(LeafPieces(leaf))
  {
    ScopeFits(leaf.columns);
    match leaf
    case OnePhrase(columns, phrase) =>
      FitsConcat(ScopePieces(columns), PhrasePieces(phrase));
    case NearGroup(columns, phrases, distance) =>
      NearFits(phrases, distance);
      FitsConcat(ScopePieces(columns), [Word("NEAR"), Mark('(')] + (PhrasesPieces(phrases) + DistancePieces(distance)));
  }

  lemma {:induction false} TokFits(tok: Tok)
    ensures
      var pieces := TokPieces(tok);
      && Fits(pieces) && pieces != [] && !pieces[|pieces| - 1].Word?
      && (tok.Literal? || (!pieces[0].Quoted? && !pieces[0].Word? && !pieces[|pieces| - 1].Quoted?))
  {
    if tok.Literal? {
      LeafFits(tok.leaf);
    }
  }

  lemma {:induction false} ToksFit(toks: seq<Tok>)
    requires Alternates(toks)
    ensures Fits(Pieces(toks))
  {
    if toks != [] {
      assert Alternates(toks[1..]) by {
        assert forall i :: 0 < i < |toks[1..]| ==> toks[1..][i - 1] == toks[i] && toks[1..][i] == toks[i + 1];
      }
      ToksFit(toks[1..]);
      TokFits(toks[0]);
      if |toks| > 1 {
        TokFits(toks[1]);
        assert Pieces(toks[1..])[0] == TokPieces(toks[1])[0];
      }
      FitsConcat(TokPieces(toks[0]), Pieces(toks[1..]));
    }
  }

  /** FTS5 reads the text of a compiled query, character by character, as the tree the compiler means. */
  lemma {:induction false} TextReadsBack(node: Node)
    requires InNormalForm(node) && Compile(node).Some?
    ensures ReadText(Render(Compile(node).value)) == Some(Intended(node))
  {
    var toks := Compile(node).value;
    CompileAlternates(node);
    ToksFit(toks);
    LexReadsPieces(Pieces(toks));
    ToksSpell(toks);
    GroupReadsToks(toks, Spell(toks));
    MatchReadsBack(node);
  }

  /** The MATCH text of a query selects exactly the documents the query holds for, whatever words it is made of. */
  lemma {:induction false} TextMeansQuery(node: Node, leaf: FtsLeaf -> bool)
    requires Builds(node) && ToMatch(node).Some?
    ensures ReadText(Render(ToMatch(node).value)).Some?
    ensures Selects(ReadText(Render(ToMatch(node).value)).value, leaf) == Holds(node, Oracle(leaf))
  {
    NormalIsNormalForm(node);
    TextReadsBack(Normal(node));
    MatchReadsBack(Normal(node));
    MatchMeansQuery(node, leaf);
  }
}
