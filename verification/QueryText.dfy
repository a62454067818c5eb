/** Writing a query tree as text, and reading the text back (search/parser.py). */
module QueryText {
  import opened Query
  import opened Spelling
  import opened QueryScanner
  import opened Parser
  import Evaluate

  // ----- The text of a tree

  function Commas(names: seq<string>): string {
    if names == [] then "" else if |names| == 1 then names[0] else names[0] + ("," + Commas(names[1..]))
  }

  function NamesOf(fields: seq<Field>): (r: seq<string>)
    ensures |r| == |fields| && forall k :: 0 <= k < |r| ==> r[k] == NameOf(fields[k])
  {
    seq(|fields|, k requires 0 <= k < |fields| => NameOf(fields[k]))
  }

  /** The scope, unless it is the one a query has without any. */
  function ScopeText(fields: seq<Field>, defaults: seq<Field>): string {
    if fields == defaults then "" else Commas(NamesOf(fields)) + ":"
  }

  function Words(leaf: Leaf): string {
    if leaf.Term? then leaf.text else Evaluate.Joined(leaf.words)
  }

  /** `word*`, `"word"` or `"some words"`. */
  function LeafText(leaf: Leaf): string {
    if leaf.Term? && leaf.isPrefix then leaf.text + "*" else "\"" + Words(leaf) + "\""
  }

  function MembersText(members: seq<Leaf>): string {
    if members == [] then "" else LeafText(members[0]) + (if |members| == 1 then "" else " " + MembersText(members[1..]))
  }

  function GroupText(members: seq<Leaf>, distance: nat): string {
    "(" + (MembersText(members) + (", " + (Digits(distance) + ")")))
  }

  function NodeText(node: Node, defaults: seq<Field>): string {
    match node
    case Lone(leaf) => ScopeText(leaf.fields, defaults) + LeafText(leaf)
    case Near(members, distance, scope) => ScopeText(scope, defaults) + ("NEAR" + GroupText(members, distance))
    case _ => ""
  }

  function SymbolText(symbol: Symbol, defaults: seq<Field>): string {
    match symbol
    case Operand(node) => NodeText(node, defaults)
    case AndOp => "AND"
    case OrOp => "OR"
    case NotOp => "NOT"
    case OpenOp => "("
    case CloseOp => ")"
    case End => ""
  }

  function Spaced(symbols: seq<Symbol>, defaults: seq<Field>): string {
    if symbols == [] then ""
    else SymbolText(symbols[0], defaults) + (if |symbols| == 1 then "" else " " + Spaced(symbols[1..], defaults))
  }

  /** The tree with every operator written out, and parentheses where precedence needs them. */
  function TextOf(node: Node, defaults: seq<Field>): string
    requires Builds(node)
  {
    Spaced(SpellDisj(PrintDisj(node)), defaults)
  }

  // ----- Which trees can be written

  predicate PlainChar(c: char) {
    IsLetter(c) || DigitOf(c).Some? || c in {'(', ')', '"', ',', ':', '*'}
  }

  /** A space is one, and no letter, digit or mark is. */
  ghost predicate SpacesAreSpaces(space: char -> bool) {
    space(' ') && forall c {:trigger PlainChar(c)} :: PlainChar(c) ==> !space(c)
  }

  /** Nothing in the word ends it or makes it more than a word. */
  ghost predicate IsWord(word: string, space: char -> bool) {
    word != "" && forall k :: 0 <= k < |word| ==> IsWordChar(word[k], space)
  }

  predicate IsWordChar(c: char, space: char -> bool) {
    !space(c) && c !in {'(', ')', '"', ',', ':', '-', '&', '|', '*'}
  }

  /** The tokenizer finds the leaf's words, and nothing else, in its text. */
  ghost predicate LeafWritable(leaf: Leaf, tokens: Tokenizer, space: char -> bool) {
    && LeafBuilds(leaf) && '"' !in Words(leaf)
    && match leaf
       case Term(text, _, isPrefix) =>
         |tokens(text)| == 1 && tokens(text)[0].text == text
         && (isPrefix ==> IsWord(text, space) && tokens(text)[0].end == |text|)
       case Phrase(words, _) => |words| > 1 && TextsOf(tokens(Words(leaf))) == words
  }

  /** Some fields, in their order. */
  ghost predicate Scope(fields: seq<Field>) {
    fields != [] && exists asked :: fields == InOrder(asked)
  }

  /** The scope can be written: every field has its turn, and every field at once is written as no scope. */
  ghost predicate ScopeWritable(fields: seq<Field>, defaults: seq<Field>) {
    fields == defaults || Scope(fields)
  }

  ghost predicate AllWritable(leaves: seq<Leaf>, s: Source) {
    leaves == [] || (LeafWritable(leaves[0], s.tokens, s.space) && leaves[0].fields == [] && AllWritable(leaves[1..], s))
  }

  ghost predicate NodeWritable(node: Node, source: Source, defaults: seq<Field>) {
    match node
    case Lone(leaf) => LeafWritable(leaf, source.tokens, source.space) && ScopeWritable(leaf.fields, defaults)
    case Near(members, _, scope) =>
      |members| > 1 && AllWritable(members, source) && ScopeWritable(scope, defaults)
    case _ => false
  }

  // ----- What the query says, piece by piece

  /** The text stands in the query from `i` on. */
  ghost predicate Stands(s: Source, i: nat, word: string)
    decreases |word|
  {
    if word == "" then i <= |s.text| else i < |s.text| && s.text[i] == word[0] && Stands(s, i + 1, word[1..])
  }

  lemma {:induction false} StandsBoth(s: Source, i: nat, a: string, b: string)
    requires Stands(s, i, a + b)
    ensures Stands(s, i, a) && Stands(s, i + |a|, b)
    ensures i + |a| + |b| <= |s.text|
    decreases |a|
  {
    if a == "" {
      assert a + b == b;
      StandsFits(s, i, b);
    } else {
      assert (a + b)[1..] == a[1..] + b;
      StandsBoth(s, i + 1, a[1..], b);
    }
  }

  lemma {:induction false} StandsFits(s: Source, i: nat, word: string)
    requires Stands(s, i, word)
    ensures i + |word| <= |s.text| && s.text[i..i + |word|] == word
    decreases |word|
  {
    if word != "" {
      StandsFits(s, i + 1, word[1..]);
      assert s.text[i..i + |word|] == [s.text[i]] + s.text[i + 1..i + |word|];
    }
  }

  lemma {:induction false} SaysStands(s: Source, i: nat, word: string)
    requires s.Says(i, word)
    ensures Stands(s, i, word)
    decreases |word|
  {
    if word != "" {
      assert s.text[i] == s.text[i..i + |word|][0];
      assert s.text[i + 1..i + |word|] == s.text[i..i + |word|][1..];
      SaysStands(s, i + 1, word[1..]);
    }
  }

  lemma CharAt(s: Source, i: nat, c: char)
    requires Stands(s, i, [c])
    ensures i < |s.text| && s.text[i] == c
  {
  }

  /** What holds of every character of a text holds where it stands. */
  lemma {:induction false} AllOf(s: Source, i: nat, word: string, p: char -> bool)
    requires Stands(s, i, word) && forall k :: 0 <= k < |word| ==> p(word[k])
    ensures i + |word| <= |s.text| && forall k :: i <= k < i + |word| ==> p(s.text[k])
    decreases |word|
  {
    if word != "" {
      AllOf(s, i + 1, word[1..], p);
    }
  }

  lemma {:induction false} WordEndIs(s: Source, i: nat, end: nat, near: bool)
    requires i <= end <= |s.text|
    requires forall k :: i <= k < end ==> !s.Breaks(k) && !(near && s.text[k] == ',')
    requires end == |s.text| || s.Breaks(end) || (near && s.text[end] == ',')
    ensures s.WordEnd(i, near) == end
    decreases end - i
  {
    if i < end {
      WordEndIs(s, i + 1, end, near);
    }
  }

  lemma {:induction false} QuoteFromIs(s: Source, i: nat, at: nat)
    requires i <= at < |s.text| && s.text[at] == '"' && forall k :: i <= k < at ==> s.text[k] != '"'
    ensures s.QuoteFrom(i) == Some(at)
    decreases at - i
  {
    if i < at {
      QuoteFromIs(s, i + 1, at);
    }
  }

  lemma {:induction false} LettersEndIs(s: Source, i: nat, at: nat, end: nat)
    requires i <= at < end <= |s.text| && !IsLetter(s.text[at]) && forall k :: i <= k < at ==> IsLetter(s.text[k])
    ensures s.LettersEnd(i, end) == at
    decreases at - i
  {
    if i < at {
      LettersEndIs(s, i + 1, at, end);
    }
  }

  lemma {:induction false} NameEndIs(s: Source, i: nat, at: nat, end: nat)
    requires i <= at <= end <= |s.text| && forall k :: i <= k < at ==> s.text[k] != ','
    requires at == end || s.text[at] == ','
    ensures s.NameEnd(i, end) == at
    decreases at - i
  {
    if i < at {
      NameEndIs(s, i + 1, at, end);
    }
  }

  lemma {:induction false} DigitsEndIs(s: Source, i: nat, end: nat)
    requires i <= end < |s.text| && DigitOf(s.text[end]).None? && forall k :: i <= k < end ==> DigitOf(s.text[k]).Some?
    ensures s.DigitsEnd(i) == end
    decreases end - i
  {
    if i < end {
      DigitsEndIs(s, i + 1, end);
    }
  }

  /** Without a colon there is no field scope. */
  lemma {:induction false} NoScope(s: Source, i: nat, end: nat)
    requires i <= end <= |s.text| && forall k :: i <= k < end ==> s.text[k] != ':'
    ensures s.ScopeEnd(i, end) == None
    decreases end - i
  {
    var j := s.LettersEnd(i, end);
    if i < j < end && s.text[j] == ',' {
      NoScope(s, j + 1, end);
    }
  }

  // ----- Field scopes read back

  /** Every name is a run of letters. */
  ghost predicate Lettered(names: seq<string>) {
    forall k :: 0 <= k < |names| ==> IsLettered(names[k])
  }

  ghost predicate IsLettered(name: string) {
    name != "" && forall k :: 0 <= k < |name| ==> IsLetter(name[k])
  }

  /** Every name, whatever its case, is the name of its field. */
  ghost predicate Name(names: seq<string>, fields: seq<Field>) {
    |names| == |fields| && forall k :: 0 <= k < |names| ==> FieldNamed(LowerCase(names[k])) == Some(fields[k])
  }

  lemma NamesOfName(fields: seq<Field>)
    ensures Name(NamesOf(fields), fields) && Lettered(NamesOf(fields))
  {
    forall k | 0 <= k < |fields|
      ensures FieldNamed(LowerCase(NameOf(fields[k]))) == Some(fields[k]) && IsLettered(NameOf(fields[k]))
    {
      assert LowerCase(NameOf(fields[k])) == NameOf(fields[k]);
    }
  }

  predicate IsScopeChar(c: char) {
    IsLetter(c) || c == ','
  }

  lemma {:induction false} CommasAreLetters(names: seq<string>)
    requires Lettered(names)
    ensures forall k :: 0 <= k < |Commas(names)| ==> IsScopeChar(Commas(names)[k])
  {
    assert names != [] ==> IsLettered(names[0]);
    if |names| > 1 {
      CommasAreLetters(names[1..]);
    }
  }

  /** The names, commas between them, are what the query says from `i` to `j`. */
  ghost predicate Lists(s: Source, i: nat, j: nat, names: seq<string>) {
    names != [] && Stands(s, i, Commas(names)) && j == i + |Commas(names)|
  }

  lemma {:induction false} CommasSplit(s: Source, i: nat, j: nat, names: seq<string>)
    requires Lists(s, i, j, names)
    ensures Stands(s, i, names[0]) && i + |names[0]| <= j <= |s.text|
    ensures |names| == 1 ==> j == i + |names[0]|
    ensures |names| > 1 ==> i + |names[0]| < j && s.text[i + |names[0]|] == ','
    ensures |names| > 1 ==> Lists(s, i + |names[0]| + 1, j, names[1..])
  {
    StandsFits(s, i, Commas(names));
    if |names| > 1 {
      StandsBoth(s, i, names[0], "," + Commas(names[1..]));
      StandsBoth(s, i + |names[0]|, ",", Commas(names[1..]));
      CharAt(s, i + |names[0]|, ',');
    }
  }

  lemma NameStands(s: Source, i: nat, name: string, at: nat, end: nat)
    requires Stands(s, i, name) && IsLettered(name) && at == i + |name| <= end <= |s.text|
    ensures at < end && !IsLetter(s.text[at]) ==> s.LettersEnd(i, end) == at
    ensures at == end || s.text[at] == ',' ==> s.NameEnd(i, end) == at
    ensures s.text[i..at] == name
  {
    AllOf(s, i, name, IsLetter);
    StandsFits(s, i, name);
    if at < end && !IsLetter(s.text[at]) {
      LettersEndIs(s, i, at, end);
    }
    if at == end || s.text[at] == ',' {
      NameEndIs(s, i, at, end);
    }
  }

  lemma ScopeStep(s: Source, i: nat, j: nat, end: nat)
    requires i < j < end <= |s.text| && s.LettersEnd(i, end) == j
    ensures s.text[j] == ':' ==> s.ScopeEnd(i, end) == Some(j + 1)
    ensures s.text[j] == ',' ==> s.ScopeEnd(i, end) == s.ScopeEnd(j + 1, end)
  {
  }

  lemma {:induction false} ScopeEndReads(s: Source, i: nat, j: nat, names: seq<string>, end: nat)
    requires Lists(s, i, j, names) && Lettered(names) && j < end <= |s.text| && s.text[j] == ':'
    ensures s.ScopeEnd(i, end) == Some(j + 1)
    decreases |names|
  {
    CommasSplit(s, i, j, names);
    assert IsLettered(names[0]);
    var at := i + |names[0]|;
    NameStands(s, i, names[0], at, end);
    if |names| == 1 {
      ScopeStep(s, i, j, end);
    } else {
      ScopeEndReads(s, at + 1, j, names[1..], end);
      ScopeStep(s, i, at, end);
    }
  }

  function SetOf(fields: seq<Field>): set<Field> {
    set f | f in fields
  }

  lemma NamedStep(s: Source, i: nat, j: nat, end: nat, field: Field, requested: set<Field>)
    requires i <= j <= end <= |s.text| && s.NameEnd(i, end) == j && s.FieldAt(i, j) == Read(field)
    ensures s.NamedFields(i, end, requested) ==
            if j == end then Read(requested + {field}) else s.NamedFields(j + 1, end, requested + {field})
  {
  }

  lemma LastNameReads(s: Source, i: nat, j: nat, names: seq<string>, fields: seq<Field>, requested: set<Field>)
    requires Lists(s, i, j, names) && Name(names, fields) && Lettered(names) && |names| == 1
    ensures j <= |s.text| && s.NamedFields(i, j, requested) == Read(requested + {fields[0]})
  {
    CommasSplit(s, i, j, names);
    assert IsLettered(names[0]);
    NameStands(s, i, names[0], j, j);
    NamedStep(s, i, j, j, fields[0], requested);
  }

  lemma {:induction false} FirstNameReads(s: Source, i: nat, j: nat, names: seq<string>, fields: seq<Field>, requested: set<Field>, at: nat,
                       from: nat, more: set<Field>)
    requires Lists(s, i, j, names) && Name(names, fields) && Lettered(names) && |names| > 1
    requires at == i + |names[0]| && from == at + 1 && more == requested + {fields[0]}
    ensures from <= j <= |s.text| && Lists(s, from, j, names[1..]) && Lettered(names[1..]) && Name(names[1..], fields[1..])
    ensures s.NamedFields(i, j, requested) == s.NamedFields(from, j, more)
  {
    CommasSplit(s, i, j, names);
    assert IsLettered(names[0]);
    NameStands(s, i, names[0], at, j);
    NamedStep(s, i, at, j, fields[0], requested);
  }

  lemma FieldsGoOn(fields: seq<Field>, requested: set<Field>, all: set<Field>)
    requires fields != [] && all == requested + SetOf(fields)
    ensures all == requested + {fields[0]} + SetOf(fields[1..])
    ensures |fields| == 1 ==> all == requested + {fields[0]}
  {
    assert fields == [fields[0]] + fields[1..];
  }

  lemma {:induction false} NamesRead(s: Source, i: nat, j: nat, names: seq<string>, fields: seq<Field>, requested: set<Field>,
                                     all: set<Field>)
    requires Lists(s, i, j, names) && Name(names, fields) && Lettered(names) && all == requested + SetOf(fields)
    ensures j <= |s.text| && s.NamedFields(i, j, requested) == Read(all)
    decreases |names|
  {
    FieldsGoOn(fields, requested, all);
    if |names| == 1 {
      LastNameReads(s, i, j, names, fields, requested);
    } else {
      var at, more := i + |names[0]|, requested + {fields[0]};
      var from := at + 1;
      FirstNameReads(s, i, j, names, fields, requested, at, from, more);
      NamesRead(s, from, j, names[1..], fields[1..], more, all);
    }
  }

  // ----- Words, phrases and NEAR groups read back

  /** Nothing from `i` to `end` ends a word. */
  ghost predicate Calm(s: Source, i: nat, end: nat) {
    && i <= end <= |s.text|
    && forall k :: i <= k < end ==> !s.space(s.text[k]) && s.text[k] !in {'(', ')', '"', '&', '|'}
  }

  lemma CalmIsWord(s: Source, i: nat, end: nat, near: bool)
    requires Calm(s, i, end) && (near ==> forall k :: i <= k < end ==> s.text[k] != ',')
    requires end == |s.text| || s.space(s.text[end]) || s.text[end] in {'(', ')', '"'} || (near && s.text[end] == ',')
    ensures s.WordEnd(i, near) == end
  {
    WordEndIs(s, i, end, near);
  }

  lemma {:induction false} QuotedStands(s: Source, quote: nat, words: string, end: nat)
    requires '"' !in words && Stands(s, quote, "\"" + words + "\"") && end == quote + |words| + 2
    ensures end <= |s.text| && s.text[quote] == '"' && s.QuoteFrom(quote + 1) == Some(end - 1)
    ensures s.text[quote + 1..end - 1] == words
  {
    StandsBoth(s, quote, "\"" + words, "\"");
    StandsBoth(s, quote, "\"", words);
    CharAt(s, quote, '"');
    assert forall k :: 0 <= k < |words| ==> words[k] in words;
    AllOf(s, quote + 1, words, c => c != '"');
    CharAt(s, end - 1, '"');
    QuoteFromIs(s, quote + 1, end - 1);
    StandsFits(s, quote + 1, words);
  }

  lemma FoundIsLeaf(s: Source, leaf: Leaf, fields: Fields, position: nat, end: nat)
    requires LeafWritable(leaf, s.tokens, s.space) && !(leaf.Term? && leaf.isPrefix) && position <= end <= |s.text|
    ensures s.LeafOf(s.tokens(Words(leaf)), fields, position, end) == Read(WithScope(leaf, fields))
  {
  }

  lemma {:induction false} QuotedReads(s: Source, start: nat, quote: nat, leaf: Leaf, fields: Fields, end: nat)
    requires LeafWritable(leaf, s.tokens, s.space) && !(leaf.Term? && leaf.isPrefix)
    requires start <= quote && Stands(s, quote, LeafText(leaf)) && end == quote + |LeafText(leaf)|
    ensures start < end <= |s.text| && s.text[quote] == '"'
    ensures s.QuotedPhrase(start, quote, fields) == s.OperandLexeme(start, end, Lone(WithScope(leaf, fields)))
  {
    QuotedStands(s, quote, Words(leaf), end);
    FoundIsLeaf(s, leaf, fields, quote, end);
  }

  /** A prefix term stands from `i` to `end`: a word and a star. */
  lemma {:induction false} StemStands(s: Source, i: nat, leaf: Leaf, end: nat)
    requires LeafWritable(leaf, s.tokens, s.space) && leaf.Term? && leaf.isPrefix && SpacesAreSpaces(s.space)
    requires Stands(s, i, LeafText(leaf)) && end == i + |LeafText(leaf)|
    ensures i + 1 < end && Calm(s, i, end) && s.text[end - 1] == '*' && s.text[i] != '-'
    ensures forall k :: i <= k < end ==> s.text[k] !in {',', ':'}
    ensures s.text[i..end - 1] == leaf.text
  {
    var star := i + |leaf.text|;
    StandsBoth(s, i, leaf.text, "*");
    CharAt(s, star, '*');
    StandsFits(s, i, leaf.text);
    WordIsCalm(s, i, leaf.text, star);
    assert PlainChar('*');
    assert end == star + 1;
  }

  lemma {:induction false} WordIsCalm(s: Source, i: nat, word: string, end: nat)
    requires Stands(s, i, word) && IsWord(word, s.space) && end == i + |word|
    ensures i < end && Calm(s, i, end) && s.text[i] != '-' && forall k :: i <= k < end ==> s.text[k] !in {',', ':'}
  {
    AllOf(s, i, word, c => IsWordChar(c, s.space));
    assert forall k :: i <= k < end ==> IsWordChar(s.text[k], s.space);
  }

  lemma StemReads(s: Source, i: nat, leaf: Leaf, fields: Fields, end: nat)
    requires LeafWritable(leaf, s.tokens, s.space) && leaf.Term? && leaf.isPrefix && SpacesAreSpaces(s.space)
    requires Stands(s, i, LeafText(leaf)) && end == i + |LeafText(leaf)|
    ensures i < end <= |s.text| && s.WordLeaf(i, end, fields) == Read(WithScope(leaf, fields))
  {
    StemStands(s, i, leaf, end);
  }

  /** A word that ends in a star is no keyword and no NEAR. */
  lemma StarIsNoKeyword(s: Source, i: nat, end: nat)
    requires i < end <= |s.text| && s.text[end - 1] == '*'
    ensures Keyword(s.text[i..end]) == None && s.text[i..end] != "NEAR"
  {
    var word := s.text[i..end];
    assert word[|word| - 1] == '*';
  }

  lemma {:induction false} StemMemberReads(s: Source, i: nat, leaf: Leaf, end: nat)
    requires LeafWritable(leaf, s.tokens, s.space) && leaf.Term? && leaf.isPrefix && leaf.fields == []
    requires SpacesAreSpaces(s.space) && Stands(s, i, LeafText(leaf)) && end == i + |LeafText(leaf)| < |s.text|
    requires s.text[end] in {' ', ',', ')'}
    ensures !s.space(s.text[i]) && s.text[i] !in {',', ')'} && s.NearMember(i) == Read((Member(leaf, false), end))
  {
    StemStands(s, i, leaf, end);
    CalmIsWord(s, i, end, true);
    NoScope(s, i, end);
    StarIsNoKeyword(s, i, end);
    StemReads(s, i, leaf, [], end);
    NoSymbol(s, i);
    assert WithScope(leaf, []) == leaf;
  }

  lemma {:induction false} QuotedMemberReads(s: Source, i: nat, leaf: Leaf, end: nat)
    requires LeafWritable(leaf, s.tokens, s.space) && !(leaf.Term? && leaf.isPrefix) && leaf.fields == []
    requires SpacesAreSpaces(s.space) && Stands(s, i, LeafText(leaf)) && end == i + |LeafText(leaf)|
    ensures i < end <= |s.text| && !s.space(s.text[i]) && s.text[i] == '"'
    ensures s.NearMember(i) == Read((Member(leaf, true), end))
  {
    QuotedStands(s, i, Words(leaf), end);
    FoundIsLeaf(s, leaf, [], i, end);
    assert WithScope(leaf, []) == leaf;
    assert PlainChar('"');
  }

  /** The member reads back between spaces, commas and parentheses. */
  lemma {:induction false} MemberReads(s: Source, i: nat, leaf: Leaf, end: nat)
    requires LeafWritable(leaf, s.tokens, s.space) && leaf.fields == [] && SpacesAreSpaces(s.space)
    requires Stands(s, i, LeafText(leaf)) && end == i + |LeafText(leaf)| < |s.text| && s.text[end] in {' ', ',', ')'}
    ensures !s.space(s.text[i]) && s.text[i] !in {',', ')'}
    ensures s.NearMember(i) == Read((Member(leaf, !(leaf.Term? && leaf.isPrefix)), end))
  {
    if leaf.Term? && leaf.isPrefix {
      StemMemberReads(s, i, leaf, end);
    } else {
      QuotedMemberReads(s, i, leaf, end);
    }
  }

  function Members(leaves: seq<Leaf>): seq<Member> {
    if leaves == [] then [] else [Member(leaves[0], !(leaves[0].Term? && leaves[0].isPrefix))] + Members(leaves[1..])
  }

  lemma SpaceIsSkipped(s: Source, i: nat)
    requires i < |s.text| && SpacesAreSpaces(s.space)
    ensures s.text[i] == ' ' && i + 1 < |s.text| && !s.space(s.text[i + 1]) ==> s.SkipSpace(i) == i + 1
    ensures !s.space(s.text[i]) ==> s.SkipSpace(i) == i
  {
  }

  /** What stands before and behind a space. */
  lemma SpaceSplits(s: Source, at: nat, first: string, next: nat, from: nat, tail: string)
    requires Stands(s, at, first + (" " + tail)) && next == at + |first| && from == next + 1
    ensures Stands(s, at, first) && next < |s.text| && s.text[next] == ' ' && Stands(s, from, tail)
  {
    StandsBoth(s, at, first, " " + tail);
    StandsBoth(s, next, " ", tail);
    CharAt(s, next, ' ');
  }

  lemma MembersSplit(s: Source, at: nat, end: nat, leaves: seq<Leaf>, next: nat, from: nat, rest: seq<Leaf>)
    requires leaves != [] && Stands(s, at, MembersText(leaves)) && next == at + |LeafText(leaves[0])|
    requires end == at + |MembersText(leaves)| < |s.text| && s.text[end] in {',', ')'}
    requires from == next + 1 && rest == leaves[1..]
    ensures next <= end < |s.text| && Stands(s, at, LeafText(leaves[0])) && s.text[next] in {' ', ',', ')'}
    ensures |leaves| == 1 ==> next == end
    ensures |leaves| > 1 ==> s.text[next] == ' ' && Stands(s, from, MembersText(rest))
    ensures |leaves| > 1 ==> end == from + |MembersText(rest)|
  {
    if |leaves| == 1 {
      StandsBoth(s, at, LeafText(leaves[0]), "");
    } else {
      SpaceSplits(s, at, LeafText(leaves[0]), next, from, MembersText(rest));
    }
  }

  /** A list of members begins with one of their marks or words. */
  lemma MembersStart(s: Source, at: nat, leaves: seq<Leaf>)
    requires SpacesAreSpaces(s.space) && AllWritable(leaves, s) && leaves != [] && Stands(s, at, MembersText(leaves))
    ensures at < |s.text| && !s.space(s.text[at])
  {
    var behind := if |leaves| == 1 then "" else " " + MembersText(leaves[1..]);
    StandsBoth(s, at, LeafText(leaves[0]), behind);
    if leaves[0].Term? && leaves[0].isPrefix {
      assert s.text[at] == leaves[0].text[0];
    } else {
      assert LeafText(leaves[0])[0] == '"';
      assert PlainChar('"');
    }
  }

  /** Where the second member begins. */
  lemma SecondMemberStands(s: Source, at: nat, end: nat, leaves: seq<Leaf>, next: nat, from: nat, rest: seq<Leaf>)
    requires SpacesAreSpaces(s.space) && AllWritable(leaves, s) && |leaves| > 1
    requires Stands(s, at, MembersText(leaves)) && next == at + |LeafText(leaves[0])|
    requires end == at + |MembersText(leaves)| < |s.text| && s.text[end] in {',', ')'}
    requires from == next + 1 && rest == leaves[1..]
    ensures next < from <= end && s.SkipSpace(next) == from
    ensures Stands(s, from, MembersText(rest)) && end == from + |MembersText(rest)| && AllWritable(rest, s)
  {
    MembersSplit(s, at, end, leaves, next, from, rest);
    MembersStart(s, from, rest);
    SpaceIsSkipped(s, next);
  }

  /** One member, from `at` to `next`. */
  lemma FirstMemberReads(s: Source, i: nat, at: nat, end: nat, opening: nat, done: seq<Member>, leaves: seq<Leaf>,
                         next: nat, more: seq<Member>)
    requires SpacesAreSpaces(s.space) && AllWritable(leaves, s) && leaves != []
    requires Stands(s, at, MembersText(leaves)) && next == at + |LeafText(leaves[0])|
    requires end == at + |MembersText(leaves)| < |s.text| && s.text[end] in {',', ')'}
    requires opening < i <= at && s.SkipSpace(i) == at && more == done + [Members(leaves)[0]]
    ensures i < next <= end && s.NearMembers(i, opening, done) == s.NearMembers(next, opening, more)
    ensures |leaves| == 1 ==> next == end
  {
    MembersSplit(s, at, end, leaves, next, next + 1, leaves[1..]);
    MemberReads(s, at, leaves[0], next);
    NearStep(s, i, at, opening, done, Members(leaves)[0], next);
  }

  lemma {:induction false} LastMemberReads(s: Source, i: nat, at: nat, end: nat, opening: nat, done: seq<Member>, leaves: seq<Leaf>)
    requires SpacesAreSpaces(s.space) && AllWritable(leaves, s) && |leaves| == 1
    requires Stands(s, at, MembersText(leaves)) && end == at + |MembersText(leaves)| < |s.text| && s.text[end] in {',', ')'}
    requires opening < i <= at && s.SkipSpace(i) == at
    ensures s.NearMembers(i, opening, done) == Read((done + Members(leaves), end))
  {
    var next, more := at + |LeafText(leaves[0])|, done + [Members(leaves)[0]];
    FirstMemberReads(s, i, at, end, opening, done, leaves, next, more);
    NearStop(s, end, opening, more);
    OneMember(done, leaves, more);
  }

  lemma OneMember(done: seq<Member>, leaves: seq<Leaf>, more: seq<Member>)
    requires |leaves| == 1 && more == done + [Members(leaves)[0]]
    ensures more == done + Members(leaves)
  {
    assert Members(leaves) == [Members(leaves)[0]];
  }

  /** The members from `at` are read up to the comma at `end`. */
  lemma {:induction false} MembersRead(s: Source, i: nat, at: nat, opening: nat, done: seq<Member>, leaves: seq<Leaf>, end: nat)
    requires SpacesAreSpaces(s.space) && AllWritable(leaves, s) && leaves != []
    requires Stands(s, at, MembersText(leaves)) && end == at + |MembersText(leaves)| < |s.text| && s.text[end] in {',', ')'}
    requires opening < i <= at && s.SkipSpace(i) == at
    ensures s.NearMembers(i, opening, done) == Read((done + Members(leaves), end))
    decreases |leaves|
  {
    if |leaves| == 1 {
      LastMemberReads(s, i, at, end, opening, done, leaves);
    } else {
      var next, rest := at + |LeafText(leaves[0])|, leaves[1..];
      var from, more := next + 1, done + [Members(leaves)[0]];
      FirstMemberReads(s, i, at, end, opening, done, leaves, next, more);
      SecondMemberStands(s, at, end, leaves, next, from, rest);
      MembersGoOn(done, leaves, more, rest);
      MembersRead(s, next, from, opening, more, rest, end);
    }
  }

  lemma MembersGoOn(done: seq<Member>, leaves: seq<Leaf>, more: seq<Member>, rest: seq<Leaf>)
    requires leaves != [] && more == done + [Members(leaves)[0]] && rest == leaves[1..]
    ensures more + Members(rest) == done + Members(leaves)
  {
    var head, tail := Members(leaves)[0], Members(rest);
    assert Members(leaves) == [head] + tail;
    Regroup(done, [head], tail);
  }

  lemma Regroup<T>(a: seq<T>, b: seq<T>, c: seq<T>)
    ensures a + b + c == a + (b + c)
  {
  }

  lemma MembersReadAll(s: Source, opening: nat, from: nat, leaves: seq<Leaf>, end: nat)
    requires SpacesAreSpaces(s.space) && AllWritable(leaves, s) && leaves != [] && from == opening + 1
    requires Stands(s, from, MembersText(leaves))
    requires end == from + |MembersText(leaves)| < |s.text| && s.text[end] in {',', ')'}
    ensures s.NearMembers(from, opening, []) == Read((Members(leaves), end))
  {
    MembersStart(s, from, leaves);
    MembersRead(s, from, from, opening, [], leaves, end);
    assert [] + Members(leaves) == Members(leaves);
  }

  lemma NearStop(s: Source, end: nat, opening: nat, done: seq<Member>)
    requires SpacesAreSpaces(s.space) && opening < end < |s.text| && s.text[end] in {',', ')'}
    ensures s.NearMembers(end, opening, done) == Read((done, end))
  {
    assert PlainChar(',') && PlainChar(')');
    SpaceIsSkipped(s, end);
  }

  lemma NearStep(s: Source, i: nat, at: nat, opening: nat, done: seq<Member>, member: Member, next: nat)
    requires opening < i <= at < |s.text| && s.SkipSpace(i) == at && s.text[at] !in {',', ')'}
    requires s.NearMember(at) == Read((member, next))
    ensures i < next <= |s.text|
    ensures s.NearMembers(i, opening, done) == s.NearMembers(next, opening, done + [member])
  {
  }

  lemma {:induction false} DigitsAreDigits(n: nat)
    ensures forall k :: 0 <= k < |Digits(n)| ==> DigitOf(Digits(n)[k]).Some?
  {
    if n >= 10 {
      DigitsAreDigits(n / 10);
    }
  }

  lemma {:induction false} DistanceReads(s: Source, at: nat, distance: nat, closing: nat)
    requires SpacesAreSpaces(s.space) && Stands(s, at, ", " + (Digits(distance) + ")"))
    requires closing == at + 2 + |Digits(distance)|
    ensures closing < |s.text| && s.text[at] == ',' && s.Distance(at) == Some((distance, closing))
  {
    var space, from := at + 1, at + 2;
    StandsBoth(s, at, ", ", Digits(distance) + ")");
    assert ", " == "," + " ";
    StandsBoth(s, at, ",", " ");
    CharAt(s, at, ',');
    CharAt(s, space, ' ');
    NumberStands(s, from, distance, closing);
    SpaceIsSkipped(s, space);
    NumberReadsBack(distance);
  }

  lemma {:induction false} NumberStands(s: Source, from: nat, distance: nat, closing: nat)
    requires SpacesAreSpaces(s.space) && Stands(s, from, Digits(distance) + ")") && closing == from + |Digits(distance)|
    ensures from < closing < |s.text| && s.text[closing] == ')' && s.text[from..closing] == Digits(distance)
    ensures !s.space(s.text[from]) && s.DigitsEnd(from) == closing && s.SkipSpace(closing) == closing
  {
    StandsBoth(s, from, Digits(distance), ")");
    CharAt(s, closing, ')');
    DigitsAreDigits(distance);
    AllOf(s, from, Digits(distance), c => DigitOf(c).Some?);
    StandsFits(s, from, Digits(distance));
    assert PlainChar(s.text[from]) && PlainChar(')');
    DigitsEndIs(s, from, closing);
    SpaceIsSkipped(s, closing);
  }

  lemma {:induction false} MembersHaveLeaves(s: Source, leaves: seq<Leaf>)
    requires AllWritable(leaves, s)
    ensures |Members(leaves)| == |leaves| && forall k :: 0 <= k < |leaves| ==> Members(leaves)[k].leaf == leaves[k]
  {
    if leaves != [] {
      MembersHaveLeaves(s, leaves[1..]);
    }
  }

  lemma LeavesOfMembers(s: Source, leaves: seq<Leaf>)
    requires |leaves| > 1 && AllWritable(leaves, s)
    ensures s.Leaves(Members(leaves)) == leaves
  {
    MembersHaveLeaves(s, leaves);
  }

  lemma GroupReads(s: Source, start: nat, opening: nat, leaves: seq<Leaf>, distance: nat, fields: Fields, end: nat)
    requires SpacesAreSpaces(s.space) && |leaves| > 1 && AllWritable(leaves, s) && start <= opening
    requires Stands(s, opening, GroupText(leaves, distance)) && end == opening + |GroupText(leaves, distance)|
    ensures start < end <= |s.text| && s.text[opening] == '('
    ensures s.NearGroup(start, opening, fields) == s.OperandLexeme(start, end, Near(leaves, distance, fields))
  {
    var from, members := opening + 1, Members(leaves);
    var at, closing := from + |MembersText(leaves)|, end - 1;
    GroupParts(s, opening, leaves, distance, from, at, closing);
    LeavesOfMembers(s, leaves);
    GroupIs(s, start, opening, from, members, leaves, at, distance, closing, fields);
  }

  /** The marks of a group and where its parts begin. */
  lemma GroupSplits(s: Source, opening: nat, leaves: seq<Leaf>, distance: nat, from: nat, at: nat, closing: nat)
    requires Stands(s, opening, GroupText(leaves, distance)) && closing + 1 == opening + |GroupText(leaves, distance)|
    requires from == opening + 1 && at == from + |MembersText(leaves)|
    ensures opening < |s.text| && s.text[opening] == '(' && Stands(s, from, MembersText(leaves))
    ensures Stands(s, at, ", " + (Digits(distance) + ")")) && closing == at + 2 + |Digits(distance)|
  {
    var reach := ", " + (Digits(distance) + ")");
    StandsBoth(s, opening, "(", MembersText(leaves) + reach);
    CharAt(s, opening, '(');
    StandsBoth(s, from, MembersText(leaves), reach);
  }

  lemma GroupParts(s: Source, opening: nat, leaves: seq<Leaf>, distance: nat, from: nat, at: nat, closing: nat)
    requires SpacesAreSpaces(s.space) && leaves != [] && AllWritable(leaves, s)
    requires Stands(s, opening, GroupText(leaves, distance)) && closing + 1 == opening + |GroupText(leaves, distance)|
    requires from == opening + 1 && at == from + |MembersText(leaves)|
    ensures opening < at < closing < |s.text| && s.text[opening] == '(' && s.text[at] == ','
    ensures s.NearMembers(from, opening, []) == Read((Members(leaves), at))
    ensures s.Distance(at) == Some((distance, closing))
  {
    GroupSplits(s, opening, leaves, distance, from, at, closing);
    DistanceReads(s, at, distance, closing);
    MembersReadAll(s, opening, from, leaves, at);
  }

  lemma GroupIs(s: Source, start: nat, opening: nat, from: nat, members: seq<Member>, leaves: seq<Leaf>, at: nat, distance: nat,
                closing: nat, fields: Fields)
    requires start <= opening < at < closing < |s.text| && s.text[opening] == '(' && s.text[at] == ','
    requires s.Leaves(members) == leaves && |leaves| > 1
    requires from == opening + 1 && s.NearMembers(from, opening, []) == Read((members, at)) && s.Distance(at) == Some((distance, closing))
    ensures s.NearGroup(start, opening, fields) == s.OperandLexeme(start, closing + 1, Near(leaves, distance, fields))
  {
  }

  // ----- One operand reads back

  lemma NoSymbol(s: Source, i: nat)
    requires i < |s.text| && s.text[i] !in {'&', '|', '-', '(', ')'}
    ensures s.SymbolAt(i) == None && !s.Operator(i)
  {
    if s.Says(i, "&&") {
      SaysFirst(s, i, "&&");
    } else if s.Says(i, "||") {
      SaysFirst(s, i, "||");
    }
  }

  lemma SaysFirst(s: Source, i: nat, word: string)
    requires s.Says(i, word) && word != ""
    ensures s.text[i] == word[0]
  {
    assert s.text[i..i + |word|][0] == word[0];
  }

  lemma NextIsWord(s: Source, i: nat, defaults: Fields)
    requires i < |s.text| && Calm(s, i, i + 1) && s.text[i] != '-'
    ensures s.SkipSpace(i) == i && !s.Breaks(i) && s.Next(i, defaults) == s.WordLexeme(i, defaults)
  {
    NoSymbol(s, i);
  }

  lemma NextIsQuote(s: Source, i: nat, defaults: Fields)
    requires i < |s.text| && s.text[i] == '"' && SpacesAreSpaces(s.space)
    ensures s.Next(i, defaults) == s.QuotedPhrase(i, i, defaults)
  {
    assert PlainChar('"');
    NoSymbol(s, i);
  }

  lemma UnscopedIs(s: Source, i: nat, end: nat, defaults: Fields)
    requires i < end <= |s.text| && !s.Breaks(i) && s.WordEnd(i, false) == end
    requires s.KeywordLexeme(i, end) == None && s.ScopeEnd(i, end) == None
    ensures s.WordLexeme(i, defaults) == s.WordOrGroup(i, i, end, defaults)
  {
  }

  /** A word without a scope is a lexeme of its own, if it is no keyword. */
  lemma BareWordIs(s: Source, i: nat, end: nat, defaults: Fields)
    requires i < end && Calm(s, i, end) && s.text[i] != '-' && forall k :: i <= k < end ==> s.text[k] != ':'
    requires end == |s.text| || s.space(s.text[end]) || s.text[end] in {'(', '"'}
    requires s.KeywordLexeme(i, end) == None
    ensures s.Next(i, defaults) == s.WordOrGroup(i, i, end, defaults)
  {
    CalmIsWord(s, i, end, false);
    NoScope(s, i, end);
    NextIsWord(s, i, defaults);
    UnscopedIs(s, i, end, defaults);
  }

  lemma {:induction false} ScopedIs(s: Source, i: nat, body: nat, end: nat, asked: set<Field>, defaults: Fields)
    requires i < body <= end <= |s.text| && !s.Breaks(i) && s.WordEnd(i, false) == end
    requires s.KeywordLexeme(i, end) == None && s.ScopeEnd(i, end) == Some(body)
    requires s.NamedFields(i, body - 1, {}) == Read(asked)
    ensures s.WordLexeme(i, defaults) == s.Behind(i, body, end, InOrder(asked))
  {
    assert s.WordLexeme(i, defaults) == s.ScopedLexeme(i, body, end);
    NamesAreScope(s, i, body, end, asked);
  }

  lemma {:induction false} NamesAreScope(s: Source, start: nat, body: nat, end: nat, asked: set<Field>)
    requires start < body <= end <= |s.text| && s.NamedFields(start, body - 1, {}) == Read(asked)
    ensures s.ScopedLexeme(start, body, end) == s.Behind(start, body, end, InOrder(asked))
  {
  }

  /** A word with a colon in it is no keyword. */
  lemma ColonIsNoKeyword(s: Source, i: nat, at: nat, end: nat)
    requires i <= at < end <= |s.text| && s.text[at] in {':', '*'}
    ensures s.KeywordLexeme(i, end) == None && s.text[i..end] != "NEAR"
  {
    assert s.text[i..end][at - i] in {':', '*'};
  }

  lemma InOrderAgain(fields: seq<Field>)
    requires Scope(fields)
    ensures InOrder(SetOf(fields)) == fields
  {
    var asked :| fields == InOrder(asked);
    assert SetOf(fields) == asked;
  }

  lemma ScopeParses(s: Source, i: nat, fields: seq<Field>, body: nat, end: nat, colon: nat)
    requires Scope(fields) && SpacesAreSpaces(s.space)
    requires Stands(s, i, Commas(NamesOf(fields)) + ":") && colon == i + |Commas(NamesOf(fields))|
    requires body == colon + 1 && body <= end <= |s.text|
    ensures i + 1 < body && Calm(s, i, body) && s.text[i] != '-' && s.text[colon] == ':'
    ensures s.ScopeEnd(i, end) == Some(body) && s.NamedFields(i, colon, {}) == Read(SetOf(fields))
  {
    NamesOfName(fields);
    ScopeIsCalm(s, i, NamesOf(fields), body);
    ScopeNames(s, i, NamesOf(fields), fields, body, end, colon);
  }

  lemma ScopeNames(s: Source, i: nat, names: seq<string>, fields: seq<Field>, body: nat, end: nat, colon: nat)
    requires names != [] && Name(names, fields) && Lettered(names)
    requires Stands(s, i, Commas(names) + ":") && colon == i + |Commas(names)| && body == colon + 1 && body <= end <= |s.text|
    ensures s.text[colon] == ':' && s.ScopeEnd(i, end) == Some(body) && s.NamedFields(i, colon, {}) == Read(SetOf(fields))
  {
    StandsBoth(s, i, Commas(names), ":");
    CharAt(s, colon, ':');
    ScopeEndReads(s, i, colon, names, end);
    assert {} + SetOf(fields) == SetOf(fields);
    NamesRead(s, i, colon, names, fields, {}, SetOf(fields));
  }

  /** A written scope reads back, whatever word, quote or group follows it. */
  lemma {:induction false} ScopeReads(s: Source, i: nat, fields: seq<Field>, body: nat, end: nat, defaults: Fields)
    requires Scope(fields) && SpacesAreSpaces(s.space)
    requires Stands(s, i, Commas(NamesOf(fields)) + ":") && body == i + |Commas(NamesOf(fields))| + 1
    requires body <= end <= |s.text| && Calm(s, body, end)
    requires end == |s.text| || s.space(s.text[end]) || s.text[end] in {'(', '"'}
    ensures i < body && s.Next(i, defaults) == s.Behind(i, body, end, fields)
  {
    var colon := body - 1;
    ScopeParses(s, i, fields, body, end, colon);
    CalmIsWord(s, i, end, false);
    InOrderAgain(fields);
    ColonIsNoKeyword(s, i, colon, end);
    NextIsWord(s, i, defaults);
    ScopedIs(s, i, body, end, SetOf(fields), defaults);
  }

  lemma {:induction false} ScopeIsCalm(s: Source, i: nat, names: seq<string>, body: nat)
    requires names != [] && Lettered(names) && SpacesAreSpaces(s.space)
    requires Stands(s, i, Commas(names) + ":") && body == i + |Commas(names)| + 1
    ensures i + 1 < body && Calm(s, i, body) && s.text[i] != '-'
  {
    CommasAreLetters(names);
    StandsBoth(s, i, Commas(names), ":");
    AllOf(s, i, Commas(names), IsScopeChar);
    CharAt(s, body - 1, ':');
    assert PlainChar(':') && PlainChar(',');
    assert forall k :: i <= k < body ==> PlainChar(s.text[k]);
    assert IsLettered(names[0]) && names[0] == Commas(names)[..|names[0]|];
  }

  lemma PrefixReads(s: Source, start: nat, body: nat, leaf: Leaf, fields: Fields, end: nat)
    requires LeafWritable(leaf, s.tokens, s.space) && leaf.Term? && leaf.isPrefix && SpacesAreSpaces(s.space)
    requires start <= body && Stands(s, body, LeafText(leaf)) && end == body + |LeafText(leaf)|
    ensures body < end <= |s.text|
    ensures s.WordOrGroup(start, body, end, fields) == s.OperandLexeme(start, end, Lone(WithScope(leaf, fields)))
  {
    StemStands(s, body, leaf, end);
    StemReads(s, body, leaf, fields, end);
    ColonIsNoKeyword(s, body, end - 1, end);
  }

  lemma NearReads(s: Source, start: nat, body: nat, leaves: seq<Leaf>, distance: nat, fields: Fields, opening: nat, end: nat)
    requires SpacesAreSpaces(s.space) && |leaves| > 1 && AllWritable(leaves, s) && start <= body
    requires Stands(s, body, "NEAR" + GroupText(leaves, distance))
    requires opening == body + 4 && end == opening + |GroupText(leaves, distance)|
    ensures body < opening < end <= |s.text| && s.text[opening] == '(' && s.text[body..opening] == "NEAR"
    ensures s.WordOrGroup(start, body, opening, fields) == s.OperandLexeme(start, end, Near(leaves, distance, fields))
  {
    StandsBoth(s, body, "NEAR", GroupText(leaves, distance));
    StandsFits(s, body, "NEAR");
    GroupReads(s, start, opening, leaves, distance, fields, end);
    GroupWord(s, start, body, opening, fields);
  }

  lemma GroupWord(s: Source, start: nat, body: nat, opening: nat, fields: Fields)
    requires start <= body < opening < |s.text| && s.text[body..opening] == "NEAR" && s.text[opening] == '('
    ensures s.WordOrGroup(start, body, opening, fields) == s.NearGroup(start, opening, fields)
  {
    assert s.Says(opening, "(");
  }

  ghost predicate Closed(s: Source, end: nat) {
    end == |s.text| || (end < |s.text| && s.text[end] == ' ')
  }

  lemma UnscopedPrefixReads(s: Source, i: nat, leaf: Leaf, defaults: Fields, end: nat)
    requires SpacesAreSpaces(s.space) && LeafWritable(leaf, s.tokens, s.space) && leaf.fields == defaults
    requires leaf.Term? && leaf.isPrefix
    requires Stands(s, i, LeafText(leaf)) && end == i + |LeafText(leaf)| && Closed(s, end)
    ensures i < end <= |s.text| && s.Next(i, defaults) == s.OperandLexeme(i, end, Lone(leaf))
  {
    StemStands(s, i, leaf, end);
    ColonIsNoKeyword(s, i, end - 1, end);
    BareWordIs(s, i, end, defaults);
    PrefixReads(s, i, i, leaf, defaults, end);
  }

  lemma UnscopedLeafReads(s: Source, i: nat, leaf: Leaf, defaults: Fields, end: nat)
    requires SpacesAreSpaces(s.space) && LeafWritable(leaf, s.tokens, s.space) && leaf.fields == defaults
    requires Stands(s, i, LeafText(leaf)) && end == i + |LeafText(leaf)| && Closed(s, end)
    ensures i < end <= |s.text| && s.Next(i, defaults) == s.OperandLexeme(i, end, Lone(leaf))
  {
    if leaf.Term? && leaf.isPrefix {
      UnscopedPrefixReads(s, i, leaf, defaults, end);
    } else {
      QuotedReads(s, i, i, leaf, defaults, end);
      NextIsQuote(s, i, defaults);
    }
  }

  lemma BehindIs(s: Source, start: nat, body: nat, end: nat, fields: Fields)
    requires start < body <= end <= |s.text|
    ensures body < end ==> s.Behind(start, body, end, fields) == s.WordOrGroup(start, body, end, fields)
    ensures body == end < |s.text| && s.text[end] == '"' ==>
              s.Behind(start, body, end, fields) == s.QuotedPhrase(start, end, fields)
  {
    assert end < |s.text| && s.text[end] == '"' ==> s.Says(end, "\"");
  }

  lemma ScopedLeafReads(s: Source, i: nat, leaf: Leaf, body: nat, defaults: Fields, end: nat)
    requires SpacesAreSpaces(s.space) && LeafWritable(leaf, s.tokens, s.space) && Scope(leaf.fields)
    requires Stands(s, i, Commas(NamesOf(leaf.fields)) + ":") && body == i + |Commas(NamesOf(leaf.fields))| + 1
    requires Stands(s, body, LeafText(leaf)) && end == body + |LeafText(leaf)| && Closed(s, end)
    ensures i < end <= |s.text| && s.Next(i, defaults) == s.OperandLexeme(i, end, Lone(leaf))
  {
    if leaf.Term? && leaf.isPrefix {
      StemStands(s, body, leaf, end);
      ScopeReads(s, i, leaf.fields, body, end, defaults);
      BehindIs(s, i, body, end, leaf.fields);
      PrefixReads(s, i, body, leaf, leaf.fields, end);
    } else {
      QuotedReads(s, i, body, leaf, leaf.fields, end);
      ScopeReads(s, i, leaf.fields, body, body, defaults);
      BehindIs(s, i, body, body, leaf.fields);
    }
  }

  lemma NearIsCalm(s: Source, body: nat, opening: nat)
    requires SpacesAreSpaces(s.space) && Stands(s, body, "NEAR") && opening == body + 4
    ensures Calm(s, body, opening) && s.text[body] == 'N'
    ensures forall k :: body <= k < opening ==> s.text[k] != ':'
  {
    LettersAreCalm(s, body, "NEAR", opening);
  }

  lemma NearIsNoKeyword(s: Source, i: nat, opening: nat)
    requires i < opening <= |s.text| && s.text[i..opening] == "NEAR"
    ensures s.KeywordLexeme(i, opening) == None
  {
  }

  lemma UnscopedNearReads(s: Source, i: nat, leaves: seq<Leaf>, distance: nat, defaults: Fields, opening: nat, end: nat)
    requires SpacesAreSpaces(s.space) && |leaves| > 1 && AllWritable(leaves, s)
    requires Stands(s, i, "NEAR" + GroupText(leaves, distance))
    requires opening == i + 4 && end == opening + |GroupText(leaves, distance)|
    ensures i < end <= |s.text| && s.Next(i, defaults) == s.OperandLexeme(i, end, Near(leaves, distance, defaults))
  {
    NearReads(s, i, i, leaves, distance, defaults, opening, end);
    StandsBoth(s, i, "NEAR", GroupText(leaves, distance));
    NearIsCalm(s, i, opening);
    NearIsNoKeyword(s, i, opening);
    BareWordIs(s, i, opening, defaults);
  }

  lemma ScopedNearReads(s: Source, i: nat, body: nat, leaves: seq<Leaf>, distance: nat, fields: Fields, defaults: Fields,
                        opening: nat, end: nat)
    requires SpacesAreSpaces(s.space) && |leaves| > 1 && AllWritable(leaves, s) && Scope(fields)
    requires Stands(s, i, Commas(NamesOf(fields)) + ":") && body == i + |Commas(NamesOf(fields))| + 1
    requires Stands(s, body, "NEAR" + GroupText(leaves, distance))
    requires opening == body + 4 && end == opening + |GroupText(leaves, distance)|
    ensures i < end <= |s.text| && s.Next(i, defaults) == s.OperandLexeme(i, end, Near(leaves, distance, fields))
  {
    NearReads(s, i, body, leaves, distance, fields, opening, end);
    StandsBoth(s, body, "NEAR", GroupText(leaves, distance));
    NearIsCalm(s, body, opening);
    ScopeReads(s, i, fields, body, opening, defaults);
    BehindIs(s, i, body, opening, fields);
  }

  lemma LeafReads(s: Source, i: nat, leaf: Leaf, defaults: Fields, end: nat)
    requires SpacesAreSpaces(s.space) && LeafWritable(leaf, s.tokens, s.space) && ScopeWritable(leaf.fields, defaults)
    requires Stands(s, i, ScopeText(leaf.fields, defaults) + LeafText(leaf))
    requires end == i + |ScopeText(leaf.fields, defaults)| + |LeafText(leaf)| && Closed(s, end)
    ensures i < end <= |s.text| && s.Next(i, defaults) == s.OperandLexeme(i, end, Lone(leaf))
  {
    var scope := ScopeText(leaf.fields, defaults);
    var body := i + |scope|;
    ScopeStands(s, i, leaf.fields, defaults, LeafText(leaf), body);
    if leaf.fields == defaults {
      UnscopedLeafReads(s, i, leaf, defaults, end);
    } else {
      ScopedLeafReads(s, i, leaf, body, defaults, end);
    }
  }

  lemma GroupOperandReads(s: Source, i: nat, members: seq<Leaf>, distance: nat, scope: Fields, defaults: Fields, end: nat)
    requires SpacesAreSpaces(s.space) && |members| > 1 && AllWritable(members, s) && ScopeWritable(scope, defaults)
    requires Stands(s, i, ScopeText(scope, defaults) + ("NEAR" + GroupText(members, distance)))
    requires end == i + |ScopeText(scope, defaults)| + 4 + |GroupText(members, distance)|
    ensures i < end <= |s.text| && s.Next(i, defaults) == s.OperandLexeme(i, end, Near(members, distance, scope))
  {
    var body := i + |ScopeText(scope, defaults)|;
    var opening := body + 4;
    ScopeStands(s, i, scope, defaults, "NEAR" + GroupText(members, distance), body);
    if scope == defaults {
      UnscopedNearReads(s, i, members, distance, defaults, opening, end);
    } else {
      ScopedNearReads(s, i, body, members, distance, scope, defaults, opening, end);
    }
  }

  lemma {:induction false} ScopeStands(s: Source, i: nat, fields: seq<Field>, defaults: seq<Field>, behind: string, body: nat)
    requires Stands(s, i, ScopeText(fields, defaults) + behind) && body == i + |ScopeText(fields, defaults)|
    ensures Stands(s, body, behind) && (fields == defaults ==> body == i)
    ensures fields != defaults ==>
              Stands(s, i, Commas(NamesOf(fields)) + ":") && body == i + |Commas(NamesOf(fields))| + 1
  {
    StandsBoth(s, i, ScopeText(fields, defaults), behind);
  }

  /** An operand that ends its text or has a space behind it is the next lexeme. */
  lemma OperandReads(s: Source, i: nat, node: Node, defaults: Fields, end: nat)
    requires SpacesAreSpaces(s.space) && NodeWritable(node, s, defaults)
    requires Stands(s, i, NodeText(node, defaults)) && end == i + |NodeText(node, defaults)| && Closed(s, end)
    ensures i < end <= |s.text| && s.Next(i, defaults) == s.OperandLexeme(i, end, node)
  {
    match node
    case Lone(leaf) => LeafReads(s, i, leaf, defaults, end);
    case Near(members, distance, scope) => GroupOperandReads(s, i, members, distance, scope, defaults, end);
  }

  // ----- The lexemes of a written tree

  lemma {:induction false} KeywordReads(s: Source, i: nat, symbol: Symbol, word: string, defaults: Fields, end: nat)
    requires SpacesAreSpaces(s.space) && Keyword(word) == Some(symbol)
    requires Stands(s, i, word) && end == i + |word| && Closed(s, end)
    ensures i < end <= |s.text| && s.Next(i, defaults) == Read((Lexeme(symbol, word, i), end))
  {
    StandsFits(s, i, word);
    KeywordIsLettered(word);
    LettersAreCalm(s, i, word, end);
    CalmIsWord(s, i, end, false);
    NextIsWord(s, i, defaults);
    KeywordIs(s, i, symbol, word, defaults, end);
  }

  lemma KeywordIsLettered(word: string)
    requires Keyword(word).Some?
    ensures IsLettered(word)
  {
  }

  lemma {:induction false} KeywordIs(s: Source, i: nat, symbol: Symbol, word: string, defaults: Fields, end: nat)
    requires i < end <= |s.text| && !s.Breaks(i) && s.WordEnd(i, false) == end
    requires s.text[i..end] == word && Keyword(word) == Some(symbol)
    ensures s.WordLexeme(i, defaults) == Read((Lexeme(symbol, word, i), end))
  {
    assert s.KeywordLexeme(i, end) == Some(Lexeme(symbol, word, i));
  }

  lemma LettersAreCalm(s: Source, i: nat, word: string, end: nat)
    requires SpacesAreSpaces(s.space) && Stands(s, i, word) && end == i + |word|
    requires IsLettered(word)
    ensures Calm(s, i, end) && s.text[i] != '-' && forall k :: i <= k < end ==> s.text[k] != ':'
  {
    AllOf(s, i, word, IsLetter);
    assert forall k :: i <= k < end ==> PlainChar(s.text[k]);
  }

  lemma {:induction false} MarkReads(s: Source, i: nat, symbol: Symbol, defaults: Fields)
    requires SpacesAreSpaces(s.space) && symbol in {OpenOp, CloseOp} && Stands(s, i, SymbolText(symbol, defaults))
    ensures i < |s.text| && !s.space(s.text[i])
    ensures s.Next(i, defaults) == Read((Lexeme(symbol, SymbolText(symbol, defaults), i), i + 1))
  {
    assert PlainChar('(') && PlainChar(')');
    assert SymbolText(symbol, defaults) == [s.text[i]];
    if s.Says(i, "&&") {
      SaysFirst(s, i, "&&");
    } else if s.Says(i, "||") {
      SaysFirst(s, i, "||");
    }
  }

  lemma LeafStarts(s: Source, i: nat, leaf: Leaf)
    requires SpacesAreSpaces(s.space) && LeafWritable(leaf, s.tokens, s.space) && Stands(s, i, LeafText(leaf))
    ensures i < |s.text| && !s.space(s.text[i])
  {
    if leaf.Term? && leaf.isPrefix {
      assert s.text[i] == leaf.text[0];
    } else {
      assert LeafText(leaf)[0] == '"';
      assert PlainChar('"');
    }
  }

  lemma {:induction false} ScopeStarts(s: Source, i: nat, fields: seq<Field>, defaults: seq<Field>, behind: string, body: nat)
    requires SpacesAreSpaces(s.space) && ScopeWritable(fields, defaults)
    requires Stands(s, i, ScopeText(fields, defaults) + behind) && body == i + |ScopeText(fields, defaults)|
    ensures Stands(s, body, behind)
    ensures body == i || (i < |s.text| && !s.space(s.text[i]))
  {
    StandsBoth(s, i, ScopeText(fields, defaults), behind);
    if fields != defaults {
      NamesOfName(fields);
      ScopeIsCalm(s, i, NamesOf(fields), body);
    }
  }

  lemma {:induction false} OperandStarts(s: Source, i: nat, node: Node, defaults: seq<Field>)
    requires SpacesAreSpaces(s.space) && NodeWritable(node, s, defaults) && Stands(s, i, NodeText(node, defaults))
    ensures i < |s.text| && !s.space(s.text[i])
  {
    match node
    case Lone(leaf) =>
      var body := i + |ScopeText(leaf.fields, defaults)|;
      ScopeStarts(s, i, leaf.fields, defaults, LeafText(leaf), body);
      LeafStarts(s, body, leaf);
    case Near(members, distance, scope) =>
      var body, behind := i + |ScopeText(scope, defaults)|, "NEAR" + GroupText(members, distance);
      ScopeStarts(s, i, scope, defaults, behind, body);
      NearStarts(s, body, GroupText(members, distance), behind);
  }

  lemma NearStarts(s: Source, body: nat, group: string, behind: string)
    requires SpacesAreSpaces(s.space) && behind == "NEAR" + group && Stands(s, body, behind)
    ensures body < |s.text| && !s.space(s.text[body])
  {
    StandsBoth(s, body, "NEAR", group);
    NearIsCalm(s, body, body + 4);
  }

  ghost predicate AllSymbolsWritable(symbols: seq<Symbol>, s: Source, defaults: seq<Field>) {
    forall x :: x in symbols ==> Writable(x, s, defaults)
  }

  lemma SymbolsGoOn(symbols: seq<Symbol>, s: Source, defaults: seq<Field>)
    requires symbols != [] && AllSymbolsWritable(symbols, s, defaults)
    ensures Writable(symbols[0], s, defaults) && AllSymbolsWritable(symbols[1..], s, defaults)
    ensures symbols == [symbols[0]] + symbols[1..]
  {
  }

  ghost predicate Writable(symbol: Symbol, s: Source, defaults: seq<Field>) {
    symbol != End && (symbol.Operand? ==> NodeWritable(symbol.node, s, defaults))
  }

  lemma SymbolStarts(s: Source, i: nat, symbol: Symbol, defaults: seq<Field>)
    requires SpacesAreSpaces(s.space) && Writable(symbol, s, defaults) && Stands(s, i, SymbolText(symbol, defaults))
    ensures i < |s.text| && s.SkipSpace(i) == i
  {
    assert PlainChar('(') && PlainChar(')') && PlainChar('A') && PlainChar('O') && PlainChar('N');
    if symbol.Operand? {
      OperandStarts(s, i, symbol.node, defaults);
    } else {
      assert s.text[i] == SymbolText(symbol, defaults)[0];
    }
    SpaceIsSkipped(s, i);
  }

  /** A written symbol that ends the text or has a space behind it is the next lexeme. */
  lemma SymbolReads(s: Source, i: nat, symbol: Symbol, defaults: Fields, end: nat)
    requires SpacesAreSpaces(s.space) && Writable(symbol, s, defaults)
    requires Stands(s, i, SymbolText(symbol, defaults)) && end == i + |SymbolText(symbol, defaults)| && Closed(s, end)
    ensures i < end <= |s.text| && s.Next(i, defaults).Read?
    ensures s.Next(i, defaults).value.0.symbol == symbol && s.Next(i, defaults).value.1 == end
  {
    match symbol
    case Operand(node) => OperandReads(s, i, node, defaults, end);
    case OpenOp => MarkReads(s, i, symbol, defaults);
    case CloseOp => MarkReads(s, i, symbol, defaults);
    case _ => KeywordReads(s, i, symbol, SymbolText(symbol, defaults), defaults, end);
  }

  lemma NextSkips(s: Source, i: nat, at: nat, defaults: Fields)
    requires i <= at <= |s.text| && s.SkipSpace(i) == at && s.SkipSpace(at) == at
    ensures s.Next(i, defaults) == s.Next(at, defaults)
  {
  }

  lemma SpacedSplits(s: Source, at: nat, symbols: seq<Symbol>, defaults: Fields, end: nat, from: nat, rest: seq<Symbol>)
    requires symbols != [] && Stands(s, at, Spaced(symbols, defaults)) && at + |Spaced(symbols, defaults)| == |s.text|
    requires end == at + |SymbolText(symbols[0], defaults)| && from == end + 1 && rest == symbols[1..]
    ensures Stands(s, at, SymbolText(symbols[0], defaults)) && Closed(s, end)
    ensures |symbols| == 1 ==> end == |s.text|
    ensures |symbols| > 1 ==> s.text[end] == ' ' && Stands(s, from, Spaced(rest, defaults))
    ensures |symbols| > 1 ==> from + |Spaced(rest, defaults)| == |s.text|
  {
    if |symbols| == 1 {
      StandsBoth(s, at, SymbolText(symbols[0], defaults), "");
    } else {
      SpaceSplits(s, at, SymbolText(symbols[0], defaults), end, from, Spaced(rest, defaults));
    }
  }

  /** Scanning from `i` on gives the symbols, and then the end. */
  ghost predicate Gives(s: Source, defaults: Fields, i: nat, symbols: seq<Symbol>)
    requires i <= |s.text|
  {
    var lexed := Lexing(s.Steps(defaults), i);
    lexed.fault == None && |lexed.all| == |symbols| + 1
    && forall k :: 0 <= k < |symbols| ==> lexed.all[k].symbol == symbols[k]
  }

  lemma GivesMore(s: Source, defaults: Fields, i: nat, symbol: Symbol, end: nat, rest: seq<Symbol>)
    requires i < end <= |s.text| && s.Next(i, defaults).Read? && s.Next(i, defaults).value.1 == end
    requires s.Next(i, defaults).value.0.symbol == symbol != End && Gives(s, defaults, end, rest)
    ensures Gives(s, defaults, i, [symbol] + rest)
  {
    assert s.Steps(defaults)[i] == s.Next(i, defaults);
  }

  lemma GivesNothing(s: Source, defaults: Fields)
    ensures Gives(s, defaults, |s.text|, [])
  {
    assert s.Steps(defaults)[|s.text|] == s.Next(|s.text|, defaults);
  }

  /** The symbols from `at` on, spaces between them, are scanned to the end of the text. */
  lemma {:induction false} SpacedReads(s: Source, i: nat, at: nat, symbols: seq<Symbol>, defaults: Fields)
    requires SpacesAreSpaces(s.space) && symbols != [] && AllSymbolsWritable(symbols, s, defaults)
    requires Stands(s, at, Spaced(symbols, defaults)) && at + |Spaced(symbols, defaults)| == |s.text|
    requires i <= at && s.SkipSpace(i) == at
    ensures Gives(s, defaults, i, symbols)
    decreases |symbols|
  {
    var symbol, rest, end := symbols[0], symbols[1..], at + |SymbolText(symbols[0], defaults)|;
    var from := end + 1;
    SymbolsGoOn(symbols, s, defaults);
    SpacedSplits(s, at, symbols, defaults, end, from, rest);
    SymbolReads(s, at, symbol, defaults, end);
    SymbolStarts(s, at, symbol, defaults);
    NextSkips(s, i, at, defaults);
    if |symbols| == 1 {
      GivesNothing(s, defaults);
    } else {
      SpacedStarts(s, from, rest, defaults);
      SpaceIsSkipped(s, end);
      SpacedReads(s, end, from, rest, defaults);
    }
    GivesMore(s, defaults, i, symbol, end, rest);
  }

  lemma SpacedStarts(s: Source, at: nat, symbols: seq<Symbol>, defaults: Fields)
    requires SpacesAreSpaces(s.space) && symbols != [] && AllSymbolsWritable(symbols, s, defaults)
    requires Stands(s, at, Spaced(symbols, defaults))
    ensures at < |s.text| && s.SkipSpace(at) == at
  {
    StandsBoth(s, at, SymbolText(symbols[0], defaults), if |symbols| == 1 then "" else " " + Spaced(symbols[1..], defaults));
    SymbolStarts(s, at, symbols[0], defaults);
  }

  // ----- A written tree parses to its canonical form

  /** The symbol is written, and an operand among the leaves that satisfy `p`. */
  ghost predicate Written(symbols: seq<Symbol>, p: Node -> bool) {
    forall x :: x in symbols ==> x != End && (x.Operand? ==> p(x.node))
  }

  lemma WrittenBoth(a: seq<Symbol>, b: seq<Symbol>, p: Node -> bool)
    requires Written(a, p) && Written(b, p)
    ensures Written(a + b, p)
  {
  }

  lemma {:induction false} NegIsWritten(node: Node, p: Node -> bool)
    requires Builds(node) && Consists(node, true, p)
    ensures Written(SpellNeg(PrintNeg(node)), p)
    decreases node, 2
  {
    match node
    case Not(x) =>
      NegIsWritten(x, p);
      var inner := PrintNeg(x);
      WrittenBoth([NotOp], SpellNeg(inner), p);
      assert SpellNeg(PrintNeg(node)) == [NotOp] + SpellNeg(inner);
    case And(_) => BracketIsWritten(node, p);
    case Or(_) => BracketIsWritten(node, p);
    case _ => assert SpellNeg(PrintNeg(node)) == [Operand(node)];
  }

  lemma {:induction false} BracketIsWritten(node: Node, p: Node -> bool)
    requires Builds(node) && (node.And? || node.Or?) && Consists(node, true, p)
    ensures Written(SpellNeg(PrintNeg(node)), p)
    decreases node, 1
  {
    var inner := SpellDisj(PrintGroup(node));
    GroupIsWritten(node, p);
    WrittenBoth([OpenOp], inner, p);
    WrittenBoth([OpenOp] + inner, [CloseOp], p);
    assert SpellNeg(PrintNeg(node)) == [OpenOp] + inner + [CloseOp];
  }

  lemma {:induction false} GroupIsWritten(node: Node, p: Node -> bool)
    requires Builds(node) && (node.And? || node.Or?) && Consists(node, true, p)
    ensures Written(SpellDisj(PrintGroup(node)), p)
    ensures node.And? ==> Written(SpellConj(PrintGroup(node).first), p)
    decreases node, 0
  {
    var first, rest := node.operands[0], node.operands[1..];
    if node.Or? {
      ConjIsWritten(first, p);
      ConjsAreWritten(rest, p);
      WrittenBoth(SpellConj(PrintConj(first)), SpellConjs(PrintConjs(rest)), p);
    } else {
      NegIsWritten(first, p);
      NegsAreWritten(rest, p);
      WrittenBoth(SpellNeg(PrintNeg(first)), SpellNegs(PrintNegs(rest)), p);
      assert SpellDisj(PrintGroup(node)) == SpellConj(PrintGroup(node).first);
    }
  }

  lemma {:induction false} ConjIsWritten(node: Node, p: Node -> bool)
    requires Builds(node) && Consists(node, true, p)
    ensures Written(SpellConj(PrintConj(node)), p)
    decreases node, 3
  {
    if node.And? {
      GroupIsWritten(node, p);
    } else {
      NegIsWritten(node, p);
      assert SpellConj(PrintConj(node)) == SpellNeg(PrintNeg(node));
    }
  }

  lemma {:induction false} ConjsAreWritten(nodes: seq<Node>, p: Node -> bool)
    requires forall x :: x in nodes ==> Builds(x) && Consists(x, true, p)
    ensures Written(SpellConjs(PrintConjs(nodes)), p)
    decreases nodes, 0
  {
    if nodes != [] {
      var first, rest := SpellConj(PrintConj(nodes[0])), SpellConjs(PrintConjs(nodes[1..]));
      ConjIsWritten(nodes[0], p);
      ConjsAreWritten(nodes[1..], p);
      WrittenBoth([OrOp], first, p);
      WrittenBoth([OrOp] + first, rest, p);
    }
  }

  lemma {:induction false} NegsAreWritten(nodes: seq<Node>, p: Node -> bool)
    requires forall x :: x in nodes ==> Builds(x) && Consists(x, true, p)
    ensures Written(SpellNegs(PrintNegs(nodes)), p)
    decreases nodes, 0
  {
    if nodes != [] {
      var first, rest := SpellNeg(PrintNeg(nodes[0])), SpellNegs(PrintNegs(nodes[1..]));
      NegIsWritten(nodes[0], p);
      NegsAreWritten(nodes[1..], p);
      WrittenBoth([AndOp], first, p);
      WrittenBoth([AndOp] + first, rest, p);
    }
  }

  lemma DisjIsWritten(node: Node, p: Node -> bool)
    requires Builds(node) && Consists(node, true, p)
    ensures Written(SpellDisj(PrintDisj(node)), p)
  {
    if node.Or? {
      GroupIsWritten(node, p);
    } else {
      ConjIsWritten(node, p);
      assert SpellDisj(PrintDisj(node)) == SpellConj(PrintConj(node));
    }
  }

  /** Every leaf of the tree can be written. */
  ghost predicate TreeWritable(node: Node, s: Source, defaults: seq<Field>) {
    Builds(node) && Consists(node, true, (leaf: Node) => NodeWritable(leaf, s, defaults))
  }

  lemma {:induction false} GivenIsSpelled(all: seq<Lexeme>, i: nat, symbols: seq<Symbol>)
    requires i + |symbols| <= |all| && forall k :: 0 <= k < |symbols| ==> all[i + k].symbol == symbols[k]
    ensures Spelled(all, i, symbols)
    decreases |symbols|
  {
    if symbols != [] {
      var rest := symbols[1..];
      forall k | 0 <= k < |rest|
        ensures all[i + 1 + k].symbol == rest[k]
      {
        assert rest[k] == symbols[k + 1];
      }
      GivenIsSpelled(all, i + 1, rest);
    }
  }

  /** A tree written as text parses to its canonical form, as long as the written parentheses nest within
      the limit, and is refused otherwise. */
  lemma TextReadsBack(node: Node, s: Source, defaults: Fields)
    requires SpacesAreSpaces(s.space) && TreeWritable(node, s, defaults) && s.text == TextOf(node, defaults)
    ensures
      var depth := Deepest(SpellDisj(PrintDisj(node)), 0);
      && (QueryOf(s, defaults).Parsed? <==> depth <= MAX_GROUP_DEPTH)
      && (depth <= MAX_GROUP_DEPTH ==> QueryOf(s, defaults).value == Normal(node))
  {
    var symbols, all := SpellDisj(PrintDisj(node)), s.Lexemes(defaults).all;
    DisjIsWritten(node, leaf => NodeWritable(leaf, s, defaults));
    DisjLeads(PrintDisj(node));
    SaysStands(s, 0, s.text);
    SpacedStarts(s, 0, symbols, defaults);
    SpacedReads(s, 0, 0, symbols, defaults);
    GivenIsSpelled(all, 0, symbols);
    PrintThenParse(node, all);
  }
}
