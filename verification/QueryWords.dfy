/** What the words of a query mean as they are typed: operators, scopes, phrases and prefixes (search/parser.py). */
module QueryWords {
  import opened Query
  import opened Spelling
  import opened QueryScanner
  import opened Parser
  import opened QueryText

  // ----- Where a word ends

  ghost predicate BreaksAt(s: Source, k: nat)
    requires k < |s.text|
  {
    s.space(s.text[k]) || s.text[k] in {'(', ')', '"'} || s.Says(k, "&&") || s.Says(k, "||")
  }

  /** From `i` to `end` stands a word, with nothing in it that ends it and something behind it that does. */
  ghost predicate IsPiece(s: Source, i: nat, end: nat) {
    && i < end <= |s.text| && (forall k :: i <= k < end ==> !BreaksAt(s, k))
    && (end == |s.text| || BreaksAt(s, end))
  }

  lemma {:induction false} PieceIsScanned(s: Source, i: nat, end: nat, defaults: Fields)
    requires IsPiece(s, i, end) && s.text[i] != '-'
    ensures s.WordEnd(i, false) == end && !s.Breaks(i) && s.Next(i, defaults) == s.WordLexeme(i, defaults)
  {
    assert !BreaksAt(s, i);
    assert forall k :: i <= k < end ==> !BreaksAt(s, k) ==> !s.Breaks(k);
    WordEndIs(s, i, end, false);
  }

  // ----- Operators

  /** `AND`, `OR` and `NOT` are operators in upper case only; a word is never another operator. */
  lemma {:induction false} OperatorsAreUpperCase(s: Source, i: nat, end: nat, defaults: Fields, word: string)
    requires IsPiece(s, i, end) && s.text[i] != '-' && word == s.text[i..end]
    ensures word == "AND" ==> s.Next(i, defaults) == Read((Lexeme(AndOp, word, i), end))
    ensures word == "OR" ==> s.Next(i, defaults) == Read((Lexeme(OrOp, word, i), end))
    ensures word == "NOT" ==> s.Next(i, defaults) == Read((Lexeme(NotOp, word, i), end))
    ensures word !in {"AND", "OR", "NOT"} && s.Next(i, defaults).Read? ==> s.Next(i, defaults).value.0.symbol.Operand?
  {
    PieceIsScanned(s, i, end, defaults);
  }

  // ----- Words without a scope

  /** The words from `from` to `end`, in the fields: a term, a phrase of the parts the tokenizer splits it into, a prefix
      term if a star follows one word directly, or the fault of having no word or a misplaced star. */
  ghost predicate Means(s: Source, start: nat, from: nat, end: nat, fields: Fields, r: Step)
    requires start <= from < end <= |s.text|
  {
    var (word, whole) := (s.text[from..end], s.text[start..end]);
    if s.text[end - 1] == '*' then
      var found := s.tokens(s.text[from..end - 1]);
      if |found| == 1 && found[0].end == |word| - 1 then
        r == Read((Lexeme(Operand(Lone(Term(found[0].text, fields, true))), whole, start), end))
      else r == Broken(Fault(StarMisplaced, end - 1, "*"))
    else
      var found := s.tokens(word);
      if found == [] then r == Broken(Fault(NoWord, from, word))
      else if |found| == 1 then r == Read((Lexeme(Operand(Lone(Term(found[0].text, fields, false))), whole, start), end))
      else
        exists words :: |words| == |found| && (forall k :: 0 <= k < |found| ==> words[k] == found[k].text)
                        && r == Read((Lexeme(Operand(Lone(Phrase(words, fields))), whole, start), end))
  }

  lemma {:induction false} OperandMeans(s: Source, start: nat, from: nat, end: nat, fields: Fields)
    requires start <= from < end <= |s.text|
    ensures Means(s, start, from, end, fields, s.OperandWord(start, from, end, fields))
  {
    var found := s.tokens(s.text[from..end]);
    assert |TextsOf(found)| == |found|;
  }

  /** Names of letters, commas between them and a colon behind them, at the start of a word. */
  ghost predicate HasScope(s: Source, i: nat, end: nat, names: seq<string>) {
    names != [] && Lettered(names) && Stands(s, i, Commas(names) + ":") && i + |Commas(names)| + 1 <= end
  }

  lemma {:induction false} LettersStand(s: Source, i: nat, j: nat)
    requires i < j <= |s.text| && forall k :: i <= k < j ==> IsLetter(s.text[k])
    ensures IsLettered(s.text[i..j]) && Stands(s, i, s.text[i..j])
  {
    assert forall k :: 0 <= k < j - i ==> s.text[i..j][k] == s.text[i + k];
    SaysStands(s, i, s.text[i..j]);
  }

  lemma {:induction false} StandsJoin(s: Source, i: nat, a: string, b: string)
    requires Stands(s, i, a) && Stands(s, i + |a|, b)
    ensures Stands(s, i, a + b)
    decreases |a|
  {
    if a == "" {
      assert a + b == b;
    } else {
      assert (a + b)[1..] == a[1..] + b;
      StandsJoin(s, i + 1, a[1..], b);
    }
  }

  lemma CharStands(s: Source, i: nat, c: char)
    requires i < |s.text| && s.text[i] == c
    ensures Stands(s, i, [c])
  {
    assert [c][1..] == "";
  }

  lemma NameThenColon(s: Source, i: nat, name: string, at: nat)
    requires Stands(s, i, name) && at == i + |name| < |s.text| && s.text[at] == ':'
    ensures Stands(s, i, Commas([name]) + ":")
  {
    CharStands(s, at, ':');
    StandsJoin(s, i, name, ":");
  }

  lemma NameThenMore(s: Source, i: nat, name: string, at: nat, rest: seq<string>, names: seq<string>)
    requires Stands(s, i, name) && at == i + |name| < |s.text| && s.text[at] == ',' && rest != []
    requires Stands(s, at + 1, Commas(rest) + ":") && names == [name] + rest
    ensures Stands(s, i, Commas(names) + ":") && |Commas(names)| == |name| + 1 + |Commas(rest)|
  {
    var behind := Commas(rest) + ":";
    CharStands(s, at, ',');
    StandsJoin(s, at, ",", behind);
    StandsJoin(s, i, name, "," + behind);
    assert names[1..] == rest;
    assert Commas(names) + ":" == name + ("," + behind);
  }

  /** A scope is found where, and only where, the word begins with one. */
  lemma {:induction false} ScopeIsNamed(s: Source, i: nat, end: nat) returns (names: seq<string>)
    requires i <= end <= |s.text| && s.ScopeEnd(i, end).Some?
    ensures HasScope(s, i, end, names) && s.ScopeEnd(i, end) == Some(i + |Commas(names)| + 1)
    decreases end - i
  {
    var j := s.LettersEnd(i, end);
    var name := s.text[i..j];
    LettersStand(s, i, j);
    if s.text[j] == ':' {
      names := [name];
      NameThenColon(s, i, name, j);
    } else {
      var rest := ScopeIsNamed(s, j + 1, end);
      names := [name] + rest;
      NameThenMore(s, i, name, j, rest, names);
      assert Lettered(names) by {
        assert forall k :: 1 <= k < |names| ==> names[k] == rest[k - 1];
      }
    }
  }

  lemma {:induction false} ScopeIsFound(s: Source, i: nat, end: nat, names: seq<string>, colon: nat, body: nat)
    requires HasScope(s, i, end, names) && end <= |s.text| && colon == i + |Commas(names)| && body == colon + 1
    ensures body <= end && s.text[colon] == ':' && s.ScopeEnd(i, end) == Some(body)
  {
    StandsBoth(s, i, Commas(names), ":");
    CharAt(s, colon, ':');
    ScopeEndReads(s, i, colon, names, end);
  }

  /** A word that is neither an operator nor has a scope means what its own text says, in the default fields. */
  lemma {:induction false} BareWordMeans(s: Source, i: nat, end: nat, defaults: Fields, word: string)
    requires IsPiece(s, i, end) && s.text[i] != '-' && word == s.text[i..end] && word !in {"AND", "OR", "NOT"}
    requires forall names :: !HasScope(s, i, end, names)
    requires !(word == "NEAR" && end < |s.text| && s.text[end] == '(')
    ensures Means(s, i, i, end, defaults, s.Next(i, defaults))
  {
    PieceIsScanned(s, i, end, defaults);
    if s.ScopeEnd(i, end).Some? {
      var names := ScopeIsNamed(s, i, end);
    }
    assert s.Next(i, defaults) == s.WordOrGroup(i, i, end, defaults);
    NotGroup(s, i, i, end, defaults);
    OperandMeans(s, i, i, end, defaults);
  }

  lemma NotGroup(s: Source, start: nat, body: nat, end: nat, fields: Fields)
    requires start <= body < end <= |s.text| && !(s.text[body..end] == "NEAR" && end < |s.text| && s.text[end] == '(')
    ensures s.WordOrGroup(start, body, end, fields) == s.OperandWord(start, body, end, fields)
  {
    if s.Says(end, "(") {
      SaysFirst(s, end, "(");
    }
  }

  // ----- Quoted phrases

  /** What stands between the quotes: a term, a phrase of its words, or the fault of having none, which is the whole quoted
      text's. */
  ghost predicate QuoteMeans(s: Source, quote: nat, closing: nat, fields: Fields, r: Scan<Leaf>)
    requires quote < closing < |s.text|
  {
    var found := s.tokens(s.text[quote + 1..closing]);
    if found == [] then r == Broken(Fault(NoWord, quote, s.text[quote..closing + 1]))
    else if |found| == 1 then r == Read(Term(found[0].text, fields, false))
    else
      exists words :: |words| == |found| && (forall k :: 0 <= k < |found| ==> words[k] == found[k].text)
                      && r == Read(Phrase(words, fields))
  }

  /** From the quote to the closing one stands no other. */
  ghost predicate IsQuoted(s: Source, quote: nat, closing: nat) {
    && quote < closing < |s.text| && s.text[quote] == '"' && s.text[closing] == '"'
    && forall k :: quote < k < closing ==> s.text[k] != '"'
  }

  lemma {:induction false} FoundMeans(s: Source, quote: nat, closing: nat, from: nat, end: nat, fields: Fields)
    requires quote < closing < |s.text| && from == quote + 1 && end == closing + 1
    ensures QuoteMeans(s, quote, closing, fields, s.LeafOf(s.tokens(s.text[from..closing]), fields, quote, end))
  {
    var found := s.tokens(s.text[from..closing]);
    assert |TextsOf(found)| == |found|;
  }

  lemma {:induction false} QuotedIs(s: Source, i: nat, closing: nat, from: nat, end: nat, fields: Fields, leaf: Scan<Leaf>)
    requires i < closing < |s.text| && s.text[i] == '"' && from == i + 1 && end == closing + 1
    requires s.QuoteFrom(from) == Some(closing) && leaf == s.LeafOf(s.tokens(s.text[from..closing]), fields, i, end)
    ensures leaf.Broken? ==> s.QuotedPhrase(i, i, fields) == Broken(leaf.fault)
    ensures leaf.Read? ==> s.QuotedPhrase(i, i, fields) == s.OperandLexeme(i, end, Lone(leaf.value))
  {
  }

  /** A quoted phrase is a lexeme of its own, up to its closing quote, in the default fields. */
  lemma {:induction false} QuotedPhraseMeans(s: Source, i: nat, closing: nat, end: nat, defaults: Fields) returns (leaf: Scan<Leaf>)
    requires SpacesAreSpaces(s.space) && IsQuoted(s, i, closing) && end == closing + 1
    ensures QuoteMeans(s, i, closing, defaults, leaf)
    ensures leaf.Broken? ==> s.Next(i, defaults) == Broken(leaf.fault)
    ensures leaf.Read? ==> s.Next(i, defaults) == Read((Lexeme(Operand(Lone(leaf.value)), s.text[i..end], i), end))
  {
    var from := i + 1;
    QuoteFromIs(s, from, closing);
    NextIsQuote(s, i, defaults);
    leaf := s.LeafOf(s.tokens(s.text[from..closing]), defaults, i, end);
    QuotedIs(s, i, closing, from, end, defaults, leaf);
    FoundMeans(s, i, closing, from, end, defaults);
  }

  /** A quote that is never closed is blamed itself. */
  lemma {:induction false} UnclosedQuoteIsBlamed(s: Source, i: nat, defaults: Fields)
    requires SpacesAreSpaces(s.space) && i < |s.text| && s.text[i] == '"' && forall k :: i < k < |s.text| ==> s.text[k] != '"'
    ensures s.Next(i, defaults) == Broken(Fault(QuoteUnclosed, i, "\""))
  {
    var from := i + 1;
    NextIsQuote(s, i, defaults);
  }

  // ----- Words with a scope

  /** The same letters, but that some of `a` are upper case. */
  ghost predicate SameButCase(a: string, b: string) {
    |a| == |b|
    && forall k :: 0 <= k < |a| ==> a[k] == b[k] || ('A' <= a[k] <= 'Z' && a[k] as int + 32 == b[k] as int)
  }

  /** A field is named in any case, and only by its own letters. */
  lemma {:induction false} CaseIsIgnored(name: string, field: Field)
    ensures FieldNamed(LowerCase(name)) == Some(field) <==> SameButCase(name, NameOf(field))
  {
    var lower := LowerCase(name);
    if SameButCase(name, NameOf(field)) {
      forall k | 0 <= k < |name|
        ensures lower[k] == NameOf(field)[k]
      {
        assert name[k] == NameOf(field)[k] ==> !('A' <= name[k] <= 'Z');
      }
      assert lower == NameOf(field);
    }
    if FieldNamed(lower) == Some(field) {
      OnlyItself(lower, field);
    }
  }

  lemma OnlyItself(name: string, field: Field)
    requires FieldNamed(name) == Some(field)
    ensures name == NameOf(field)
  {
  }

  ghost predicate NamesFields(names: seq<string>, fields: seq<Field>) {
    |names| == |fields| && forall k :: 0 <= k < |names| ==> SameButCase(names[k], NameOf(fields[k]))
  }

  lemma NamesAreFields(names: seq<string>, fields: seq<Field>)
    requires NamesFields(names, fields)
    ensures Name(names, fields)
  {
    forall k | 0 <= k < |names|
      ensures FieldNamed(LowerCase(names[k])) == Some(fields[k])
    {
      CaseIsIgnored(names[k], fields[k]);
    }
  }

  /** The fields asked for, each once and in their own order, whatever order and case they were named in. */
  ghost predicate InTheirOrder(fields: Fields, asked: seq<Field>) {
    && (forall f :: f in fields <==> f in asked)
    && forall j, k :: 0 <= j < k < |fields| ==> Rank(fields[j]) < Rank(fields[k])
  }

  function Rank(field: Field): nat {
    match field
    case Title => 0
    case Abstract => 1
    case Body => 2
  }

  lemma InOrderIs(asked: seq<Field>)
    ensures InTheirOrder(InOrder(SetOf(asked)), asked)
  {
  }

  lemma {:induction false} ScopeIsScanned(s: Source, i: nat, end: nat, defaults: Fields, names: seq<string>, asked: seq<Field>, body: nat)
    requires IsPiece(s, i, end) && HasScope(s, i, end, names) && NamesFields(names, asked) && body == i + |Commas(names)| + 1
    ensures s.Next(i, defaults) == s.Behind(i, body, end, InOrder(SetOf(asked)))
  {
    var colon := body - 1;
    NamesAreFields(names, asked);
    ScopeNames(s, i, names, asked, body, end, colon);
    ScopeStartsWithLetter(s, i, names);
    PieceIsScanned(s, i, end, defaults);
    ColonIsNoKeyword(s, i, colon, end);
    ScopedIs(s, i, body, end, SetOf(asked), defaults);
  }

  lemma ScopeStartsWithLetter(s: Source, i: nat, names: seq<string>)
    requires names != [] && Lettered(names) && Stands(s, i, Commas(names) + ":")
    ensures i < |s.text| && s.text[i] != '-'
  {
    assert IsLettered(names[0]) && (Commas(names) + ":")[0] == names[0][0];
  }

  /** A word behind a scope is searched for in the fields named, whatever the default fields. */
  lemma {:induction false} ScopedWordMeans(s: Source, i: nat, end: nat, defaults: Fields, names: seq<string>, asked: seq<Field>, body: nat)
    returns (fields: Fields)
    requires IsPiece(s, i, end) && HasScope(s, i, end, names) && NamesFields(names, asked) && body == i + |Commas(names)| + 1
    requires body < end && !(s.text[body..end] == "NEAR" && end < |s.text| && s.text[end] == '(')
    ensures InTheirOrder(fields, asked) && Means(s, i, body, end, fields, s.Next(i, defaults))
  {
    fields := InOrder(SetOf(asked));
    InOrderIs(asked);
    ScopeIsScanned(s, i, end, defaults, names, asked, body);
    NotGroup(s, i, body, end, fields);
    OperandMeans(s, i, body, end, fields);
  }

  /** A scope must be followed directly by a word or a quote. */
  lemma {:induction false} ScopeAloneIsRefused(s: Source, i: nat, end: nat, defaults: Fields, names: seq<string>, asked: seq<Field>)
    requires IsPiece(s, i, end) && HasScope(s, i, end, names) && NamesFields(names, asked) && end == i + |Commas(names)| + 1
    requires end < |s.text| ==> s.text[end] != '"'
    ensures s.Next(i, defaults) == Broken(Fault(ScopeAlone, i, s.text[i..end]))
  {
    ScopeIsScanned(s, i, end, defaults, names, asked, end);
    if s.Says(end, "\"") {
      SaysFirst(s, end, "\"");
    }
  }

  /** The first name in the scope that is no field is blamed, where it stands. */
  lemma {:induction false} UnknownFieldIsBlamed(s: Source, i: nat, end: nat, defaults: Fields, names: seq<string>, known: seq<Field>,
                                               n: nat, at: nat)
    requires IsPiece(s, i, end) && HasScope(s, i, end, names) && n < |names|
    requires NamesFields(names[..n], known) && forall field :: !SameButCase(names[n], NameOf(field))
    requires at == i + if n == 0 then 0 else |Commas(names[..n])| + 1
    ensures s.Next(i, defaults) == Broken(Fault(UnknownField, at, names[n]))
  {
    var colon := i + |Commas(names)|;
    var body := colon + 1;
    ScopeIsFound(s, i, end, names, colon, body);
    StandsBoth(s, i, Commas(names), ":");
    NamesAreFields(names[..n], known);
    NoFieldIsNamed(names[n]);
    UnknownIsNamed(s, i, colon, names, known, n, at, {});
    ScopeIsLexeme(s, i, end, defaults, names, colon, body);
    assert body - 1 == colon;
    UnknownIsBroken(s, i, body, end, Fault(UnknownField, at, names[n]));
  }

  lemma NoFieldIsNamed(name: string)
    requires forall field :: !SameButCase(name, NameOf(field))
    ensures FieldNamed(LowerCase(name)) == None
  {
    forall field
      ensures FieldNamed(LowerCase(name)) != Some(field)
    {
      CaseIsIgnored(name, field);
    }
  }

  lemma {:induction false} ScopeIsLexeme(s: Source, i: nat, end: nat, defaults: Fields, names: seq<string>, colon: nat, body: nat)
    requires IsPiece(s, i, end) && HasScope(s, i, end, names) && colon == i + |Commas(names)| && body == colon + 1
    requires s.text[colon] == ':'
    ensures s.Next(i, defaults) == s.ScopedLexeme(i, body, end)
  {
    ScopeIsFound(s, i, end, names, colon, body);
    ScopeStartsWithLetter(s, i, names);
    PieceIsScanned(s, i, end, defaults);
    ColonIsNoKeyword(s, i, colon, end);
    ScopeIsTaken(s, i, body, end, defaults);
  }

  lemma {:induction false} ScopeIsTaken(s: Source, i: nat, body: nat, end: nat, defaults: Fields)
    requires i < body <= end <= |s.text| && !s.Breaks(i) && s.WordEnd(i, false) == end
    requires s.KeywordLexeme(i, end) == None && s.ScopeEnd(i, end) == Some(body)
    ensures s.WordLexeme(i, defaults) == s.ScopedLexeme(i, body, end)
  {
  }

  lemma {:induction false} UnknownIsBroken(s: Source, i: nat, body: nat, end: nat, fault: Fault)
    requires i < body <= end <= |s.text| && s.NamedFields(i, body - 1, {}) == Broken(fault)
    ensures s.ScopedLexeme(i, body, end) == Broken(fault)
  {
  }

  lemma {:induction false} UnknownIsNamed(s: Source, i: nat, j: nat, names: seq<string>, known: seq<Field>, n: nat, at: nat,
                                         requested: set<Field>)
    requires Lists(s, i, j, names) && Lettered(names) && n < |names| && Name(names[..n], known)
    requires FieldNamed(LowerCase(names[n])) == None
    requires at == i + if n == 0 then 0 else |Commas(names[..n])| + 1
    ensures i <= j <= |s.text| && s.NamedFields(i, j, requested) == Broken(Fault(UnknownField, at, names[n]))
    decreases n
  {
    var stop := i + |names[0]|;
    FirstNameStands(s, i, j, names, stop);
    if n > 0 {
      var (from, rest, less) := (stop + 1, names[1..], n - 1);
      KnownGoOn(names, known, n, rest, less, i, from, at);
      NamedStep(s, i, stop, j, known[0], requested);
      UnknownIsNamed(s, from, j, rest, known[1..], less, at, requested + {known[0]});
    }
  }

  lemma {:induction false} FirstNameStands(s: Source, i: nat, j: nat, names: seq<string>, stop: nat)
    requires Lists(s, i, j, names) && Lettered(names) && stop == i + |names[0]|
    ensures i <= stop <= j <= |s.text| && s.text[i..stop] == names[0] && s.NameEnd(i, j) == stop
    ensures |names| > 1 ==> stop < j && Lists(s, stop + 1, j, names[1..]) && Lettered(names[1..])
  {
    CommasSplit(s, i, j, names);
    assert IsLettered(names[0]);
    NameStands(s, i, names[0], stop, j);
  }

  lemma {:induction false} KnownGoOn(names: seq<string>, known: seq<Field>, n: nat, rest: seq<string>, less: nat, i: nat, from: nat,
                                    at: nat)
    requires 0 < n < |names| && Name(names[..n], known) && rest == names[1..] && less == n - 1 && from == i + |names[0]| + 1
    requires at == i + |Commas(names[..n])| + 1
    ensures FieldNamed(LowerCase(names[0])) == Some(known[0]) && Name(rest[..less], known[1..]) && names[n] == rest[less]
    ensures at == from + if less == 0 then 0 else |Commas(rest[..less])| + 1
  {
    assert names[..n][0] == names[0] && names[..n][1..] == rest[..less];
    assert less == 0 ==> names[..n] == [names[0]];
  }

  // ----- NEAR groups

  /** Without a number a group reaches ten tokens. */
  lemma {:induction false} GroupWithoutDistance(s: Source, start: nat, opening: nat, leaves: seq<Leaf>, fields: Fields, end: nat)
    requires SpacesAreSpaces(s.space) && |leaves| > 1 && AllWritable(leaves, s) && start <= opening
    requires Stands(s, opening, "(" + (MembersText(leaves) + ")")) && end == opening + |MembersText(leaves)| + 2
    ensures start < end <= |s.text| && s.text[opening] == '('
    ensures s.NearGroup(start, opening, fields) == s.OperandLexeme(start, end, Near(leaves, 10, fields))
  {
    var from, closing := opening + 1, end - 1;
    MembersClose(s, opening, leaves, from, closing);
    LeavesOfMembers(s, leaves);
    ClosedGroupIs(s, start, opening, from, Members(leaves), leaves, closing, fields, end);
  }

  /** One quoted phrase alone stands for its words, near each other. */
  lemma {:induction false} GroupOfOnePhrase(s: Source, start: nat, opening: nat, leaf: Leaf, fields: Fields, end: nat)
    requires SpacesAreSpaces(s.space) && leaf.Phrase? && AllWritable([leaf], s) && start <= opening
    requires Stands(s, opening, "(" + (MembersText([leaf]) + ")")) && end == opening + |MembersText([leaf])| + 2
    ensures start < end <= |s.text| && s.text[opening] == '('
    ensures s.NearGroup(start, opening, fields) == s.OperandLexeme(start, end, Near(Terms(leaf.words), 10, fields))
  {
    var from, closing := opening + 1, end - 1;
    MembersClose(s, opening, [leaf], from, closing);
    OnlyMember(leaf);
    ClosedGroupIs(s, start, opening, from, Members([leaf]), Terms(leaf.words), closing, fields, end);
    WordsAreSeveral(s, leaf);
  }

  /** Any other member alone stands for itself, in the group's fields. */
  lemma {:induction false} GroupOfOneTerm(s: Source, start: nat, opening: nat, leaf: Leaf, fields: Fields, end: nat)
    requires SpacesAreSpaces(s.space) && leaf.Term? && AllWritable([leaf], s) && start <= opening
    requires Stands(s, opening, "(" + (MembersText([leaf]) + ")")) && end == opening + |MembersText([leaf])| + 2
    ensures start < end <= |s.text| && s.text[opening] == '('
    ensures s.NearGroup(start, opening, fields) == s.OperandLexeme(start, end, Lone(Term(leaf.text, fields, leaf.isPrefix)))
  {
    var from, closing := opening + 1, end - 1;
    MembersClose(s, opening, [leaf], from, closing);
    OnlyMember(leaf);
    assert s.Leaves(Members([leaf])) == [leaf];
    ClosedGroupIs(s, start, opening, from, Members([leaf]), [leaf], closing, fields, end);
  }

  lemma OnlyMember(leaf: Leaf)
    ensures Members([leaf]) == [Member(leaf, !(leaf.Term? && leaf.isPrefix))]
  {
  }

  lemma {:induction false} MembersClose(s: Source, opening: nat, leaves: seq<Leaf>, from: nat, closing: nat)
    requires SpacesAreSpaces(s.space) && leaves != [] && AllWritable(leaves, s) && from == opening + 1
    requires Stands(s, opening, "(" + (MembersText(leaves) + ")")) && closing == from + |MembersText(leaves)|
    ensures opening < closing < |s.text| && s.text[opening] == '(' && s.text[closing] == ')'
    ensures s.NearMembers(from, opening, []) == Read((Members(leaves), closing))
  {
    InBrackets(s, opening, MembersText(leaves), from, closing);
    MembersReadAll(s, opening, from, leaves, closing);
  }

  lemma {:induction false} InBrackets(s: Source, opening: nat, inner: string, from: nat, closing: nat)
    requires Stands(s, opening, "(" + (inner + ")")) && from == opening + 1 && closing == from + |inner|
    ensures opening < closing < |s.text| && s.text[opening] == '(' && s.text[closing] == ')' && Stands(s, from, inner)
  {
    StandsBoth(s, opening, "(", inner + ")");
    CharAt(s, opening, '(');
    StandsBoth(s, from, inner, ")");
    CharAt(s, closing, ')');
  }

  lemma WordsAreSeveral(s: Source, leaf: Leaf)
    requires leaf.Phrase? && AllWritable([leaf], s)
    ensures |Terms(leaf.words)| > 1
  {
  }

  lemma {:induction false} ClosedGroupIs(s: Source, start: nat, opening: nat, from: nat, members: seq<Member>, leaves: seq<Leaf>,
                                        closing: nat, fields: Fields, end: nat)
    requires start <= opening < closing < |s.text| && s.text[opening] == '(' && s.text[closing] == ')' && end == closing + 1
    requires from == opening + 1 && s.NearMembers(from, opening, []) == Read((members, closing))
    requires s.Leaves(members) == leaves != []
    ensures |leaves| > 1 ==> s.NearGroup(start, opening, fields) == s.OperandLexeme(start, end, Near(leaves, 10, fields))
    ensures |leaves| == 1 ==> s.NearGroup(start, opening, fields) == s.OperandLexeme(start, end, Lone(WithScope(leaves[0], fields)))
  {
    ReachIsTen(s, closing);
    GroupIsLexeme(s, start, opening, from, members, closing, fields);
    LexemeIsNode(s, start, closing, leaves, fields, end);
  }

  lemma ReachIsTen(s: Source, closing: nat)
    requires closing < |s.text| && s.text[closing] == ')'
    ensures s.Reach(closing) == Some((10, closing))
  {
  }

  lemma {:induction false} GroupIsLexeme(s: Source, start: nat, opening: nat, from: nat, members: seq<Member>, closing: nat,
                                         fields: Fields)
    requires start <= opening < closing < |s.text| && s.text[opening] == '(' && s.text[closing] in {',', ')'}
    requires from == opening + 1 && s.NearMembers(from, opening, []) == Read((members, closing))
    requires s.Reach(closing) == Some((10, closing))
    ensures s.NearGroup(start, opening, fields) == s.GroupLexeme(start, closing, s.Leaves(members), 10, fields)
  {
  }

  lemma {:induction false} LexemeIsNode(s: Source, start: nat, closing: nat, leaves: seq<Leaf>, fields: Fields, end: nat)
    requires start <= closing < |s.text| && leaves != [] && end == closing + 1
    ensures |leaves| > 1 ==> s.GroupLexeme(start, closing, leaves, 10, fields) == s.OperandLexeme(start, end, Near(leaves, 10, fields))
    ensures |leaves| == 1 ==>
              s.GroupLexeme(start, closing, leaves, 10, fields) == s.OperandLexeme(start, end, Lone(WithScope(leaves[0], fields)))
  {
  }

  predicate AllDigits(text: string) {
    forall k :: 0 <= k < |text| ==> '0' <= text[k] <= '9'
  }

  ghost predicate AllSpaces(s: Source, i: nat, j: nat)
    requires i <= j <= |s.text|
  {
    forall k :: i <= k < j ==> s.space(s.text[k])
  }

  /** Behind the comma at `i` stand a whole number and the closing parenthesis, with nothing but spaces around them. */
  ghost predicate HasDistance(s: Source, i: nat, from: nat, to: nat, closing: nat) {
    && i < from < to <= closing < |s.text| && s.text[closing] == ')' && AllDigits(s.text[from..to])
    && AllSpaces(s, i + 1, from) && AllSpaces(s, to, closing)
  }

  lemma {:induction false} SkipsTo(s: Source, i: nat, at: nat)
    requires i <= at < |s.text| && AllSpaces(s, i, at) && !s.space(s.text[at])
    ensures s.SkipSpace(i) == at
    decreases at - i
  {
    if i < at {
      var next := i + 1;
      SkipsTo(s, next, at);
    }
  }

  /** A distance is read where one stands, and only there. */
  lemma {:induction false} DistanceIsRead(s: Source, i: nat, from: nat, to: nat, closing: nat)
    requires SpacesAreSpaces(s.space) && HasDistance(s, i, from, to, closing)
    ensures ReadNumber(s.text[from..to]).Some? && s.Distance(i) == Some((ReadNumber(s.text[from..to]).value, closing))
  {
    var digits, start := s.text[from..to], i + 1;
    forall k | from <= k < to
      ensures DigitOf(s.text[k]).Some? && PlainChar(s.text[k])
    {
      assert s.text[k] == digits[k - from];
    }
    assert PlainChar(')') && DigitOf(')').None?;
    SkipsTo(s, start, from);
    SkipsTo(s, to, closing);
    NotADigit(s, to, closing);
    DigitsEndIs(s, from, to);
  }

  lemma NotADigit(s: Source, to: nat, closing: nat)
    requires SpacesAreSpaces(s.space) && to <= closing < |s.text| && s.text[closing] == ')' && AllSpaces(s, to, closing)
    ensures DigitOf(s.text[to]).None?
  {
    if to < closing {
      assert s.space(s.text[to]) && (DigitOf(s.text[to]).Some? ==> PlainChar(s.text[to]));
    }
  }

  lemma {:induction false} OnlyDistanceIsRead(s: Source, i: nat) returns (from: nat, to: nat)
    requires i < |s.text| && s.Distance(i).Some?
    ensures HasDistance(s, i, from, to, s.Distance(i).value.1)
  {
    from := s.SkipSpace(i + 1);
    to := s.DigitsEnd(from);
    forall k | 0 <= k < to - from
      ensures '0' <= s.text[from..to][k] <= '9'
    {
      assert s.text[from..to][k] == s.text[from + k] && DigitOf(s.text[from + k]).Some?;
    }
  }

  /** A quoted phrase is a member of a group, too. */
  lemma {:induction false} QuotedMemberMeans(s: Source, i: nat, closing: nat) returns (leaf: Scan<Leaf>)
    requires SpacesAreSpaces(s.space) && IsQuoted(s, i, closing) && !s.space(s.text[i])
    ensures QuoteMeans(s, i, closing, [], leaf)
    ensures
      s.NearMember(i)
      == match leaf case Broken(fault) => Broken(fault) case Read(leaf) => Read((Member(leaf, true), closing + 1))
  {
    var from, end := i + 1, closing + 1;
    QuoteFromIs(s, from, closing);
    leaf := s.LeafOf(s.tokens(s.text[from..closing]), [], i, end);
    FoundMeans(s, i, closing, from, end, []);
  }

  /** In a group a word is a member of its own, without a scope, an operator or a dash in front of it. */
  lemma {:induction false} BareMemberMeans(s: Source, i: nat, end: nat, word: string)
    requires i < end <= |s.text| && word == s.text[i..end] && !s.space(s.text[i]) && s.text[i] !in {',', ')'}
    requires forall k :: i <= k < end ==> !BreaksAt(s, k) && s.text[k] != ','
    requires end == |s.text| || BreaksAt(s, end) || s.text[end] == ','
    ensures (word in {"AND", "OR", "NOT"} || s.text[i] == '-' || exists names :: HasScope(s, i, end, names)) ==>
              s.NearMember(i) == Broken(Fault(NotNearOperand, i, word))
    ensures !(word in {"AND", "OR", "NOT"} || s.text[i] == '-' || exists names :: HasScope(s, i, end, names)) ==>
              match s.WordLeaf(i, end, [])
              case Broken(fault) => s.NearMember(i) == Broken(fault)
              case Read(leaf) => s.NearMember(i) == Read((Member(leaf, false), end))
  {
    assert !BreaksAt(s, i);
    assert forall k :: i <= k < end ==> !BreaksAt(s, k) ==> !s.Breaks(k);
    WordEndIs(s, i, end, true);
    if s.ScopeEnd(i, end).Some? {
      var names := ScopeIsNamed(s, i, end);
    }
    if names :| HasScope(s, i, end, names) {
      var colon := i + |Commas(names)|;
      ScopeIsFound(s, i, end, names, colon, colon + 1);
    }
  }
}
