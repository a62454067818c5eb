/** From the characters of a query to its lexemes, one at a time (search/parser.py). */
module QueryScanner {
  import opened Query
  import opened Spelling

  /** A word of a text, folded, and the half-open range it was written at. */
  datatype Token = Token(text: string, start: nat, end: nat)

  /** Tokens are never empty, as folded or as written. */
  ghost predicate Tokenizes(f: string -> seq<Token>) {
    forall s: string, k :: 0 <= k < |f(s)| ==> f(s)[k].text != "" && f(s)[k].start < f(s)[k].end <= |s|
  }

  type Tokenizer = f: string -> seq<Token> | Tokenizes(f) witness _ => []

  datatype Symbol = Operand(node: Node) | AndOp | OrOp | NotOp | OpenOp | CloseOp | End

  datatype Lexeme = Lexeme(symbol: Symbol, text: string, position: nat)

  datatype Complaint =
    | UnknownField | ScopeAlone | QuoteUnclosed | NoWord | StarMisplaced
    | NearUnclosed | NotNearOperand | InsideNear | DistanceExpected | NearEmpty

  /** What is wrong, and the piece of the query it is wrong with. */
  datatype Fault = Fault(complaint: Complaint, position: nat, token: string)

  datatype Scan<T> = Read(value: T) | Broken(fault: Fault)

  /** The lexemes up to the end or the first fault; an End stands last in either case. */
  datatype Lexed = Lexed(all: seq<Lexeme>, fault: Option<Fault>)

  /** The end comes once, last. */
  ghost predicate Scanned(all: seq<Lexeme>) {
    all != [] && forall k :: 0 <= k < |all| ==> (all[k].symbol == End <==> k == |all| - 1)
  }

  // ----- The lexemes, one scan after another

  /** A lexeme and where the next scan begins, or a fault. */
  type Step = Scan<(Lexeme, nat)>

  /** Every scan but one at the end moves on. */
  ghost predicate Forward(steps: seq<Step>) {
    steps != [] && forall i :: 0 <= i < |steps| && steps[i].Read? && steps[i].value.0.symbol != End ==>
                     i < steps[i].value.1 < |steps|
  }

  function Lexing(steps: seq<Step>, i: nat): (r: Lexed)
    requires Forward(steps) && i < |steps|
    ensures Scanned(r.all)
    decreases |steps| - i
  {
    match steps[i]
    case Broken(fault) => Lexed([Lexeme(End, "", i)], Some(fault))
    case Read((lexeme, next)) =>
      if lexeme.symbol == End then Lexed([lexeme], None)
      else var rest := Lexing(steps, next); Lexed([lexeme] + rest.all, rest.fault)
  }

  /** Where the scan of each lexeme begins. */
  ghost function Starts(steps: seq<Step>, i: nat): seq<nat>
    requires Forward(steps) && i < |steps|
    decreases |steps| - i
  {
    if steps[i].Read? && steps[i].value.0.symbol != End then [i] + Starts(steps, steps[i].value.1) else [i]
  }

  /** The k-th lexeme is what a scan from `starts[k]` gives, and the next scan begins behind it. */
  ghost predicate Scans(steps: seq<Step>, lexed: Lexed, starts: seq<nat>, k: nat) {
    && k < |lexed.all| == |starts| && starts[k] < |steps|
    && match steps[starts[k]]
       case Broken(fault) => k + 1 == |lexed.all| && lexed.fault == Some(fault)
       case Read((lexeme, next)) =>
         && lexed.all[k] == lexeme
         && if lexeme.symbol == End then k + 1 == |lexed.all| && lexed.fault == None
            else k + 1 < |lexed.all| && starts[k + 1] == next
  }

  lemma {:induction false} LexingScans(steps: seq<Step>, i: nat)
    requires Forward(steps) && i < |steps|
    ensures Starts(steps, i)[0] == i
    ensures forall k :: 0 <= k < |Lexing(steps, i).all| ==> Scans(steps, Lexing(steps, i), Starts(steps, i), k)
    decreases |steps| - i
  {
    if steps[i].Read? && steps[i].value.0.symbol != End {
      var next := steps[i].value.1;
      LexingScans(steps, next);
      forall k | 0 <= k < |Lexing(steps, i).all|
        ensures Scans(steps, Lexing(steps, i), Starts(steps, i), k)
      {
        assert Scans(steps, Lexing(steps, next), Starts(steps, next), if k > 0 then k - 1 else 0);
      }
    }
  }

  const NEAR_DISTANCE: nat := 10

  /** A scope; no fields means every field. */
  type Fields = fields: seq<Field> | Distinct(fields) witness []

  /** The fields asked for, in their own order and once each. */
  function InOrder(fields: set<Field>): (r: Fields)
    ensures forall f :: f in r <==> f in fields
  {
    assert forall f :: f in fields ==> f == Title || f == Abstract || f == Body;
    var title := if Title in fields then [Title] else [];
    var abstractText := if Abstract in fields then [Abstract] else [];
    var body := if Body in fields then [Body] else [];
    assert forall f :: f in title + abstractText + body <==> f in title || f in abstractText || f in body;
    title + abstractText + body
  }

  predicate IsLetter(c: char) {
    'a' <= c <= 'z' || 'A' <= c <= 'Z'
  }

  function LowerCase(word: string): (r: string)
    ensures |r| == |word|
  {
    seq(|word|, k requires 0 <= k < |word| =>
      if 'A' <= word[k] <= 'Z' then (word[k] as int + 32) as char else word[k])
  }

  function Keyword(word: string): Option<Symbol> {
    if word == "AND" then Some(AndOp) else if word == "OR" then Some(OrOp) else if word == "NOT" then Some(NotOp) else None
  }

  function WithScope(leaf: Leaf, fields: Fields): Leaf {
    match leaf
    case Term(text, _, isPrefix) => Term(text, fields, isPrefix)
    case Phrase(words, _) => Phrase(words, fields)
  }

  function Terms(words: seq<string>): (r: seq<Leaf>)
    ensures |r| == |words| && forall k :: 0 <= k < |r| ==> r[k] == Term(words[k], [], false)
  {
    seq(|words|, k requires 0 <= k < |words| => Term(words[k], [], false))
  }

  function TextsOf(tokens: seq<Token>): (r: seq<string>)
    ensures |r| == |tokens| && forall k :: 0 <= k < |r| ==> r[k] == tokens[k].text
  {
    seq(|tokens|, k requires 0 <= k < |tokens| => tokens[k].text)
  }

  datatype Member = Member(leaf: Leaf, quoted: bool)

  ghost predicate Buildable(leaf: Leaf, fields: Fields) {
    LeafBuilds(leaf) && leaf.fields == fields
  }

  /** A query's text, with the tokenizer that splits its words and the characters it counts as spaces. */
  datatype Source = Source(text: string, tokens: Tokenizer, space: char -> bool) {

    /** `token` is what the query says at `position`. */
    predicate Says(position: nat, token: string) {
      position + |token| <= |text| && text[position..position + |token|] == token
    }

    ghost predicate Points(fault: Fault) {
      Says(fault.position, fault.token)
    }

    // ----- Runs of characters

    function SkipSpace(i: nat): (r: nat)
      requires i <= |text|
      ensures i <= r <= |text| && (forall k :: i <= k < r ==> space(text[k]))
      ensures r < |text| ==> !space(text[r])
      decreases |text| - i
    {
      if i < |text| && space(text[i]) then SkipSpace(i + 1) else i
    }

    predicate Operator(i: nat) {
      Says(i, "&&") || Says(i, "||")
    }

    predicate Breaks(i: nat)
      requires i < |text|
    {
      space(text[i]) || text[i] in {'(', ')', '"'} || Operator(i)
    }

    /** Where the word from `i` on ends; inside NEAR a comma ends it too. */
    function WordEnd(i: nat, near: bool): (r: nat)
      requires i <= |text|
      ensures i <= r <= |text|
      ensures forall k :: i <= k < r ==> !Breaks(k) && !(near && text[k] == ',')
      ensures r < |text| ==> Breaks(r) || (near && text[r] == ',')
      decreases |text| - i
    {
      if i == |text| || Breaks(i) || (near && text[i] == ',') then i else WordEnd(i + 1, near)
    }

    function QuoteFrom(i: nat): (r: Option<nat>)
      requires i <= |text|
      ensures r.Some? ==> i <= r.value < |text| && text[r.value] == '"' && '"' !in text[i..r.value]
      ensures r.None? ==> '"' !in text[i..]
      decreases |text| - i
    {
      if i == |text| then None else if text[i] == '"' then Some(i) else QuoteFrom(i + 1)
    }

    function DigitsEnd(i: nat): (r: nat)
      requires i <= |text|
      ensures i <= r <= |text| && (forall k :: i <= k < r ==> DigitOf(text[k]).Some?)
      ensures r < |text| ==> DigitOf(text[r]).None?
      decreases |text| - i
    {
      if i < |text| && DigitOf(text[i]).Some? then DigitsEnd(i + 1) else i
    }

    // ----- Field scopes

    function LettersEnd(i: nat, end: nat): (r: nat)
      requires i <= end <= |text|
      ensures i <= r <= end && (forall k :: i <= k < r ==> IsLetter(text[k])) && (r < end ==> !IsLetter(text[r]))
      decreases end - i
    {
      if i < end && IsLetter(text[i]) then LettersEnd(i + 1, end) else i
    }

    /** The end of a field scope at the start of the word: names, commas between them, and a colon. */
    function ScopeEnd(i: nat, end: nat): (r: Option<nat>)
      requires i <= end <= |text|
      ensures r.Some? ==> i + 1 < r.value <= end && text[r.value - 1] == ':'
      decreases end - i
    {
      var j := LettersEnd(i, end);
      if i == j || j == end then None
      else if text[j] == ':' then Some(j + 1)
      else if text[j] == ',' then ScopeEnd(j + 1, end)
      else None
    }

    function NameEnd(i: nat, end: nat): (r: nat)
      requires i <= end <= |text|
      ensures i <= r <= end
      decreases end - i
    {
      if i < end && text[i] != ',' then NameEnd(i + 1, end) else i
    }

    function FieldAt(i: nat, end: nat): Scan<Field>
      requires i <= end <= |text|
    {
      match FieldNamed(LowerCase(text[i..end]))
      case None => Broken(Fault(UnknownField, i, text[i..end]))
      case Some(field) => Read(field)
    }

    /** The fields already asked for and those named from `i` to `end`, commas between them. */
    function NamedFields(i: nat, end: nat, requested: set<Field>): Scan<set<Field>>
      requires i <= end <= |text|
      decreases end - i
    {
      var j := NameEnd(i, end);
      match FieldAt(i, j)
      case Broken(fault) => Broken(fault)
      case Read(field) =>
        if j == end then Read(requested + {field}) else NamedFields(j + 1, end, requested + {field})
    }

    // ----- Words and phrases

    function OperandLexeme(start: nat, end: nat, node: Node): (r: Step)
      requires start < end <= |text|
      ensures r.Read? && r.value.1 == end
    {
      Read((Lexeme(Operand(node), text[start..end], start), end))
    }

    function LeafOf(found: seq<Token>, fields: Fields, position: nat, end: nat): Scan<Leaf>
      requires position <= end <= |text|
    {
      if found == [] then Broken(Fault(NoWord, position, text[position..end]))
      else if |found| == 1 then Read(Term(found[0].text, fields, false))
      else Read(Phrase(TextsOf(found), fields))
    }

    function WordLeaf(i: nat, end: nat, fields: Fields): Scan<Leaf>
      requires i < end <= |text|
    {
      if text[end - 1] != '*' then LeafOf(tokens(text[i..end]), fields, i, end)
      else
        var stem := text[i..end - 1];
        if |tokens(stem)| != 1 || tokens(stem)[0].end != |stem| then Broken(Fault(StarMisplaced, end - 1, "*"))
        else Read(Term(tokens(stem)[0].text, fields, true))
    }

    /** The quoted text that opens at `quote`, as a lexeme that began at `start`. */
    function QuotedPhrase(start: nat, quote: nat, fields: Fields): (r: Step)
      requires start <= quote < |text| && text[quote] == '"'
      ensures r.Read? ==> start < r.value.1 <= |text| && r.value.0.symbol.Operand?
    {
      match QuoteFrom(quote + 1)
      case None => Broken(Fault(QuoteUnclosed, quote, "\""))
      case Some(closing) =>
        match LeafOf(tokens(text[quote + 1..closing]), fields, quote, closing + 1)
        case Broken(fault) => Broken(fault)
        case Read(leaf) => OperandLexeme(start, closing + 1, Lone(leaf))
    }

    // ----- NEAR groups

    function NearMember(i: nat): (r: Scan<(Member, nat)>)
      requires i < |text| && !space(text[i]) && text[i] !in {',', ')'}
      ensures r.Read? ==> i < r.value.1 <= |text|
    {
      if text[i] == '"' then
        match QuoteFrom(i + 1)
        case None => Broken(Fault(QuoteUnclosed, i, "\""))
        case Some(closing) =>
          (match LeafOf(tokens(text[i + 1..closing]), [], i, closing + 1)
           case Broken(fault) => Broken(fault)
           case Read(leaf) => Read((Member(leaf, true), closing + 1)))
      else if Operator(i) then Broken(Fault(NotNearOperand, i, text[i..i + 2]))
      else
        var end := WordEnd(i, true);
        if ScopeEnd(i, end).Some? || Keyword(text[i..end]).Some? || (i < end && text[i] == '-') then
          Broken(Fault(NotNearOperand, i, text[i..end]))
        else if i == end then Broken(Fault(InsideNear, i, text[i..i + 1]))
        else
          match WordLeaf(i, end, [])
          case Broken(fault) => Broken(fault)
          case Read(leaf) => Read((Member(leaf, false), end))
    }

    /** The members already read and those from `i` to the comma or parenthesis that ends the list. */
    function NearMembers(i: nat, opening: nat, members: seq<Member>): (r: Scan<(seq<Member>, nat)>)
      requires opening < i <= |text|
      ensures r.Read? ==> i <= r.value.1 < |text| && text[r.value.1] in {',', ')'}
      decreases |text| - i
    {
      var j := SkipSpace(i);
      if j == |text| then Broken(Fault(NearUnclosed, opening, "("))
      else if text[j] in {',', ')'} then Read((members, j))
      else
        match NearMember(j)
        case Broken(fault) => Broken(fault)
        case Read((member, next)) => NearMembers(next, opening, members + [member])
    }

    /** The number behind the comma at `i` and where its closing parenthesis stands. */
    function Distance(i: nat): (r: Option<(nat, nat)>)
      requires i < |text|
      ensures r.Some? ==> i < r.value.1 < |text| && text[r.value.1] == ')'
    {
      var from := SkipSpace(i + 1);
      var to := DigitsEnd(from);
      var closing := SkipSpace(to);
      if from == to || closing == |text| || text[closing] != ')' then None
      else Some((ReadNumber(text[from..to]).value, closing))
    }

    /** One quoted phrase alone stands for its words. */
    function Leaves(members: seq<Member>): seq<Leaf> {
      if |members| == 1 && members[0].quoted && members[0].leaf.Phrase? then Terms(members[0].leaf.words)
      else seq(|members|, k requires 0 <= k < |members| => members[k].leaf)
    }

    function GroupNode(leaves: seq<Leaf>, distance: nat, fields: Fields): Node
      requires leaves != []
    {
      if |leaves| == 1 then Lone(WithScope(leaves[0], fields)) else Near(leaves, distance, fields)
    }

    function NearGroup(start: nat, opening: nat, fields: Fields): (r: Step)
      requires start <= opening < |text| && text[opening] == '('
      ensures r.Read? ==> start < r.value.1 <= |text| && r.value.0.symbol.Operand?
    {
      match NearMembers(opening + 1, opening, [])
      case Broken(fault) => Broken(fault)
      case Read((members, end)) =>
        match Reach(end)
        case None => Broken(Fault(DistanceExpected, end, ","))
        case Some((distance, closing)) => GroupLexeme(start, closing, Leaves(members), distance, fields)
    }

    /** How far the members may be apart, and where the group closes. */
    function Reach(end: nat): (r: Option<(nat, nat)>)
      requires end < |text| && text[end] in {',', ')'}
      ensures r.Some? ==> end <= r.value.1 < |text|
      ensures r.None? ==> text[end] == ','
    {
      if text[end] == ',' then Distance(end) else Some((NEAR_DISTANCE, end))
    }

    function GroupLexeme(start: nat, closing: nat, leaves: seq<Leaf>, distance: nat, fields: Fields): (r: Step)
      requires start <= closing < |text|
      ensures r.Read? ==> start < r.value.1 <= |text| && r.value.0.symbol.Operand?
    {
      if leaves == [] then Broken(Fault(NearEmpty, start, text[start..closing + 1]))
      else OperandLexeme(start, closing + 1, GroupNode(leaves, distance, fields))
    }

    // ----- One lexeme, and all of them

    function WordLexeme(start: nat, defaults: Fields): (r: Step)
      requires start < |text| && !Breaks(start)
      ensures r.Read? ==> start < r.value.1 <= |text| && r.value.0.symbol != End
    {
      var end := WordEnd(start, false);
      match KeywordLexeme(start, end)
      case Some(lexeme) => Read((lexeme, end))
      case None =>
        match ScopeEnd(start, end)
        case None => WordOrGroup(start, start, end, defaults)
        case Some(body) => ScopedLexeme(start, body, end)
    }

    function KeywordLexeme(start: nat, end: nat): (r: Option<Lexeme>)
      requires start < end <= |text|
      ensures r.Some? ==> r.value.symbol != End
    {
      match Keyword(text[start..end])
      case None => None
      case Some(symbol) => Some(Lexeme(symbol, text[start..end], start))
    }

    /** What follows the field scope that ends at `body`: a word, a NEAR group or a quoted phrase. */
    function ScopedLexeme(start: nat, body: nat, end: nat): (r: Step)
      requires start < body <= end <= |text|
      ensures r.Read? ==> start < r.value.1 <= |text| && r.value.0.symbol.Operand?
    {
      Scoped(start, body, end, NamedFields(start, body - 1, {}))
    }

    function Scoped(start: nat, body: nat, end: nat, fields: Scan<set<Field>>): (r: Step)
      requires start < body <= end <= |text|
      ensures r.Read? ==> start < r.value.1 <= |text| && r.value.0.symbol.Operand?
    {
      match fields
      case Broken(fault) => Broken(fault)
      case Read(fields) => Behind(start, body, end, InOrder(fields))
    }

    function Behind(start: nat, body: nat, end: nat, fields: Fields): (r: Step)
      requires start < body <= end <= |text|
      ensures r.Read? ==> start < r.value.1 <= |text| && r.value.0.symbol.Operand?
    {
      if body < end then WordOrGroup(start, body, end, fields)
      else if Says(end, "\"") then QuotedPhrase(start, end, fields)
      else Broken(Fault(ScopeAlone, start, text[start..end]))
    }

    /** A NEAR group when its name stands right before a parenthesis, and otherwise a word. */
    function WordOrGroup(start: nat, body: nat, end: nat, fields: Fields): (r: Step)
      requires start <= body < end <= |text|
      ensures r.Read? ==> start < r.value.1 <= |text| && r.value.0.symbol.Operand?
    {
      if text[body..end] == "NEAR" && Says(end, "(") then NearGroup(start, end, fields)
      else OperandWord(start, body, end, fields)
    }

    /** The word from `body` to `end` as a lexeme that began at `start`. */
    function OperandWord(start: nat, body: nat, end: nat, fields: Fields): (r: Step)
      requires start <= body < end <= |text|
      ensures r.Read? ==> start < r.value.1 <= |text| && r.value.0.symbol.Operand?
    {
      match WordLeaf(body, end, fields)
      case Broken(fault) => Broken(fault)
      case Read(leaf) => OperandLexeme(start, end, Lone(leaf))
    }

    function SymbolAt(i: nat): (r: Option<Lexeme>)
      requires i < |text|
    {
      if Says(i, "&&") then Some(Lexeme(AndOp, "&&", i))
      else if Says(i, "||") then Some(Lexeme(OrOp, "||", i))
      else if text[i] == '-' then Some(Lexeme(NotOp, "-", i))
      else if text[i] == '(' then Some(Lexeme(OpenOp, "(", i))
      else if text[i] == ')' then Some(Lexeme(CloseOp, ")", i))
      else None
    }

    /** The next lexeme and where it ends, with every fault located in the query. */
    function Next(i: nat, defaults: Fields): (r: Step)
      requires i <= |text|
      ensures r.Read? ==> i <= r.value.1 <= |text| && (r.value.0.symbol == End || i < r.value.1)
    {
      var start := SkipSpace(i);
      if start == |text| then Read((Lexeme(End, "", start), start))
      else
        match SymbolAt(start)
        case Some(lexeme) => Read((lexeme, start + |lexeme.text|))
        case None =>
          if text[start] == '"' then QuotedPhrase(start, start, defaults) else WordLexeme(start, defaults)
    }

    /** What a scan from each position gives. */
    function Steps(defaults: Fields): (r: seq<Step>)
      ensures Forward(r) && |r| == |text| + 1
      ensures forall i {:trigger Next(i, defaults)} :: 0 <= i <= |text| ==> r[i] == Next(i, defaults)
    {
      seq(|text| + 1, i requires 0 <= i <= |text| => Next(i, defaults))
    }

    function Lexemes(defaults: Fields): (r: Lexed)
      ensures Scanned(r.all)
    {
      Lexing(Steps(defaults), 0)
    }

    // ----- Every lexeme and every fault is what the query says at its position

    /** The lexeme is what the query says at its position, and an operand is a word, a phrase or a group. */
    ghost predicate Legible(lexeme: Lexeme) {
      && Says(lexeme.position, lexeme.text)
      && match lexeme.symbol
         case OpenOp => lexeme.text == "("
         case CloseOp => lexeme.text == ")"
         case AndOp => lexeme.text == "AND" || lexeme.text == "&&"
         case OrOp => lexeme.text == "OR" || lexeme.text == "||"
         case NotOp => lexeme.text == "NOT" || lexeme.text == "-"
         case End => lexeme.text == ""
         case Operand(node) => lexeme.text != "" && (node.Lone? || node.Near?) && Builds(node)
    }

    /** Only spaces stand between `i` and the lexeme, and it reaches to `next`. */
    ghost predicate Lies(i: nat, lexeme: Lexeme, next: nat) {
      && i <= lexeme.position && next == lexeme.position + |lexeme.text| <= |text|
      && (forall k :: i <= k < lexeme.position ==> space(text[k]))
      && Legible(lexeme) && (lexeme.symbol == End ==> next == |text|)
    }

    ghost predicate Sound(i: nat, r: Step) {
      match r
      case Broken(fault) => Points(fault)
      case Read((lexeme, next)) => Lies(i, lexeme, next)
    }

    lemma OperandIsSound(start: nat, end: nat, node: Node)
      requires start < end <= |text| && Builds(node) && (node.Lone? || node.Near?)
      ensures Sound(start, OperandLexeme(start, end, node))
    {
    }

    ghost predicate LeafIsSound(r: Scan<Leaf>, fields: Fields) {
      match r
      case Broken(fault) => Points(fault)
      case Read(leaf) => Buildable(leaf, fields)
    }

    lemma FoundIsSound(words: string, fields: Fields, position: nat, end: nat)
      requires position <= end <= |text|
      ensures LeafIsSound(LeafOf(tokens(words), fields, position, end), fields)
    {
      var found := tokens(words);
      assert forall k :: 0 <= k < |found| ==> found[k].text != "";
      assert |found| > 1 ==> "" !in TextsOf(found) && |TextsOf(found)| > 1;
    }

    lemma WordLeafIsSound(i: nat, end: nat, fields: Fields)
      requires i < end <= |text|
      ensures LeafIsSound(WordLeaf(i, end, fields), fields)
    {
      FoundIsSound(text[i..end], fields, i, end);
      var found := tokens(text[i..end - 1]);
      assert |found| == 1 ==> found[0].text != "";
    }

    lemma QuotedIsSound(start: nat, quote: nat, fields: Fields)
      requires start <= quote < |text| && text[quote] == '"'
      ensures Sound(start, QuotedPhrase(start, quote, fields))
    {
      var closing := QuoteFrom(quote + 1);
      if closing.Some? {
        var words := text[quote + 1..closing.value];
        FoundIsSound(words, fields, quote, closing.value + 1);
        var leaf := LeafOf(tokens(words), fields, quote, closing.value + 1);
        if leaf.Read? {
          OperandIsSound(start, closing.value + 1, Lone(leaf.value));
        }
      }
    }

    ghost predicate MemberSound(r: Scan<(Member, nat)>) {
      match r
      case Broken(fault) => Points(fault)
      case Read((member, _)) => Buildable(member.leaf, [])
    }

    lemma QuotedMemberIsSound(i: nat)
      requires i < |text| && !space(text[i]) && text[i] == '"'
      ensures MemberSound(NearMember(i))
    {
      var closing := QuoteFrom(i + 1);
      if closing.Some? {
        FoundIsSound(text[i + 1..closing.value], [], i, closing.value + 1);
      }
    }

    lemma MemberIsSound(i: nat)
      requires i < |text| && !space(text[i]) && text[i] !in {',', ')'}
      ensures MemberSound(NearMember(i))
    {
      if text[i] == '"' {
        QuotedMemberIsSound(i);
      } else if i < WordEnd(i, true) {
        WordLeafIsSound(i, WordEnd(i, true), []);
      }
    }

    ghost predicate AllBuildable(members: seq<Member>) {
      forall m :: m in members ==> Buildable(m.leaf, [])
    }

    ghost predicate ListIsSound(r: Scan<(seq<Member>, nat)>) {
      match r
      case Broken(fault) => Points(fault)
      case Read((members, _)) => AllBuildable(members)
    }

    lemma {:induction false} MembersAreSound(i: nat, opening: nat, members: seq<Member>)
      requires opening < i <= |text| && text[opening] == '(' && AllBuildable(members)
      ensures ListIsSound(NearMembers(i, opening, members))
      decreases |text| - i
    {
      var j := SkipSpace(i);
      if j < |text| && text[j] !in {',', ')'} {
        MemberIsSound(j);
        if NearMember(j).Read? {
          MembersAreSound(NearMember(j).value.1, opening, members + [NearMember(j).value.0]);
        }
      }
    }

    lemma NodeBuilds(members: seq<Member>, distance: nat, fields: Fields)
      requires AllBuildable(members) && Leaves(members) != []
      ensures Builds(GroupNode(Leaves(members), distance, fields))
      ensures GroupNode(Leaves(members), distance, fields).Lone? || GroupNode(Leaves(members), distance, fields).Near?
    {
      assert forall k :: 0 <= k < |members| ==> Buildable(members[k].leaf, []);
      assert forall leaf :: leaf in Leaves(members) ==> Buildable(leaf, []);
      assert Leaves(members)[0] in Leaves(members);
    }

    lemma GroupIsSound(start: nat, opening: nat, fields: Fields)
      requires start <= opening < |text| && text[opening] == '('
      ensures Sound(start, NearGroup(start, opening, fields))
    {
      MembersAreSound(opening + 1, opening, []);
      match NearMembers(opening + 1, opening, [])
      case Broken(_) =>
      case Read((members, end)) =>
        match Reach(end)
        case None => assert Says(end, ",");
        case Some((distance, closing)) => LexemeIsSound(start, closing, members, distance, fields);
    }

    lemma LexemeIsSound(start: nat, closing: nat, members: seq<Member>, distance: nat, fields: Fields)
      requires start <= closing < |text| && AllBuildable(members)
      ensures Sound(start, GroupLexeme(start, closing, Leaves(members), distance, fields))
    {
      if Leaves(members) != [] {
        NodeBuilds(members, distance, fields);
        OperandIsSound(start, closing + 1, GroupNode(Leaves(members), distance, fields));
      }
    }

    lemma WordIsSound(start: nat, body: nat, end: nat, fields: Fields)
      requires start <= body < end <= |text|
      ensures Sound(start, WordOrGroup(start, body, end, fields))
    {
      if Says(end, "(") {
        GroupIsSound(start, end, fields);
      }
      WordLeafIsSound(body, end, fields);
      var leaf := WordLeaf(body, end, fields);
      if leaf.Read? {
        OperandIsSound(start, end, Lone(leaf.value));
      }
    }

    lemma {:induction false} NamedIsSound(i: nat, end: nat, requested: set<Field>)
      requires i <= end <= |text|
      ensures NamedFields(i, end, requested).Broken? ==> Points(NamedFields(i, end, requested).fault)
      decreases end - i
    {
      var j := NameEnd(i, end);
      var field := FieldAt(i, j);
      if field.Read? && j < end {
        NamedIsSound(j + 1, end, requested + {field.value});
      }
    }

    lemma BehindIsSound(start: nat, body: nat, end: nat, fields: Fields)
      requires start < body <= end <= |text|
      ensures Sound(start, Behind(start, body, end, fields))
    {
      if body < end {
        WordIsSound(start, body, end, fields);
      } else if Says(end, "\"") {
        QuotedIsSound(start, end, fields);
      }
    }

    lemma ScopedIsSound(start: nat, body: nat, end: nat)
      requires start < body <= end <= |text|
      ensures Sound(start, ScopedLexeme(start, body, end))
    {
      var fields := NamedFields(start, body - 1, {});
      NamedIsSound(start, body - 1, {});
      if fields.Read? {
        BehindIsSound(start, body, end, InOrder(fields.value));
      }
    }

    lemma KeywordIsSound(start: nat, end: nat)
      requires start < end <= |text| && KeywordLexeme(start, end).Some?
      ensures Lies(start, KeywordLexeme(start, end).value, end)
    {
    }

    lemma WordLexemeIsSound(start: nat, defaults: Fields)
      requires start < |text| && !Breaks(start)
      ensures Sound(start, WordLexeme(start, defaults))
    {
      var end := WordEnd(start, false);
      if KeywordLexeme(start, end).Some? {
        KeywordIsSound(start, end);
      } else if ScopeEnd(start, end).Some? {
        ScopedIsSound(start, ScopeEnd(start, end).value, end);
      } else {
        WordIsSound(start, start, end, defaults);
      }
    }

    lemma NextIsSound(i: nat, defaults: Fields)
      requires i <= |text|
      ensures Sound(i, Next(i, defaults))
    {
      var start := SkipSpace(i);
      if start < |text| && SymbolAt(start).None? {
        if text[start] == '"' {
          QuotedIsSound(start, start, defaults);
        } else {
          WordLexemeIsSound(start, defaults);
        }
      }
    }
  }

  // ----- The scanner as the source runs it

  class Scanner {
    const source: Source
    const defaults: Fields
    ghost const steps: seq<Step>
    var index: nat

    constructor (source: Source, defaults: Fields)
      ensures this.source == source && this.defaults == defaults && index == 0 && Valid()
      ensures steps == source.Steps(defaults)
    {
      this.source, this.defaults, index, steps := source, defaults, 0, source.Steps(defaults);
    }

    ghost predicate Valid()
      reads this
    {
      && index <= |source.text| && |steps| == |source.text| + 1 && Forward(steps)
      && forall i {:trigger source.Next(i, defaults)} :: 0 <= i <= |source.text| ==> steps[i] == source.Next(i, defaults)
    }

    /** The lexeme or fault is the expected one, and the scanner stands behind it, or still where it was at the end. */
    ghost predicate Took(r: Scan<Lexeme>, expected: Step, before: nat)
      reads this
    {
      match expected
      case Broken(fault) => r == Broken(fault)
      case Read((lexeme, next)) => r == Read(lexeme) && index == if lexeme.symbol == End then before else next
    }

    method Next() returns (r: Scan<Lexeme>)
      requires Valid()
      modifies this
      ensures Valid()
      ensures Took(r, steps[old(index)], old(index))
    {
      assert steps[index] == source.Next(index, defaults);
      var start := SkipSpace(index);
      if start == |source.text| {
        return Read(Lexeme(End, "", start));
      }
      var symbol := source.SymbolAt(start);
      if symbol.Some? {
        index := start + |symbol.value.text|;
        return Read(symbol.value);
      }
      if source.text[start] == '"' {
        r := QuotedPhrase(start, start, defaults);
      } else {
        r := Word(start);
      }
    }

    method SkipSpace(from: nat) returns (i: nat)
      requires from <= |source.text|
      ensures i == source.SkipSpace(from)
    {
      i := from;
      while i < |source.text| && source.space(source.text[i])
        invariant i <= |source.text| && source.SkipSpace(from) == source.SkipSpace(i)
      {
        i := i + 1;
      }
    }

    method WordEnd(from: nat, near: bool) returns (i: nat)
      requires from <= |source.text|
      ensures i == source.WordEnd(from, near)
    {
      i := from;
      while i < |source.text| && !(near && source.text[i] == ',') && !source.Breaks(i)
        invariant i <= |source.text| && source.WordEnd(from, near) == source.WordEnd(i, near)
      {
        i := i + 1;
      }
    }

    method Word(start: nat) returns (r: Scan<Lexeme>)
      requires index <= |source.text| && start < |source.text| && !source.Breaks(start)
      modifies this
      ensures index <= |source.text|
      ensures Took(r, source.WordLexeme(start, defaults), old(index))
    {
      var end := WordEnd(start, false);
      index := end;
      var keyword := source.KeywordLexeme(start, end);
      if keyword.Some? {
        return Read(keyword.value);
      }
      var scope := source.ScopeEnd(start, end);
      if scope.None? {
        r := WordOrGroup(start, start, end, defaults);
      } else {
        r := ScopedWord(start, scope.value, end);
      }
    }

    method ScopedWord(start: nat, body: nat, end: nat) returns (r: Scan<Lexeme>)
      requires start < body <= end <= |source.text| && index == end
      modifies this
      ensures index <= |source.text|
      ensures Took(r, source.ScopedLexeme(start, body, end), old(index))
    {
      var fields := ScopedFields(start, body - 1);
      r := Scoped(start, body, end, fields);
    }

    method Scoped(start: nat, body: nat, end: nat, fields: Scan<set<Field>>) returns (r: Scan<Lexeme>)
      requires start < body <= end <= |source.text| && index == end
      modifies this
      ensures index <= |source.text|
      ensures Took(r, source.Scoped(start, body, end, fields), old(index))
    {
      if fields.Broken? {
        return Broken(fields.fault);
      }
      r := Behind(start, body, end, InOrder(fields.value));
    }

    method Behind(start: nat, body: nat, end: nat, fields: Fields) returns (r: Scan<Lexeme>)
      requires start < body <= end <= |source.text| && index == end
      modifies this
      ensures index <= |source.text|
      ensures Took(r, source.Behind(start, body, end, fields), old(index))
    {
      if body < end {
        r := WordOrGroup(start, body, end, fields);
      } else if source.Says(end, "\"") {
        r := QuotedPhrase(start, end, fields);
      } else {
        r := Broken(Fault(ScopeAlone, start, source.text[start..end]));
      }
    }

    method ScopedFields(from: nat, end: nat) returns (r: Scan<set<Field>>)
      requires from <= end <= |source.text|
      ensures r == source.NamedFields(from, end, {})
    {
      ghost var all := source.NamedFields(from, end, {});
      var position, requested: set<Field> := from, {};
      while true
        invariant from <= position <= end
        invariant all == source.NamedFields(position, end, requested)
        decreases end - position
      {
        var stop := source.NameEnd(position, end);
        var field := source.FieldAt(position, stop);
        if field.Broken? {
          return Broken(field.fault);
        }
        if stop == end {
          return Read(requested + {field.value});
        }
        requested := requested + {field.value};
        position := stop + 1;
      }
    }

    method WordOrGroup(start: nat, body: nat, end: nat, fields: Fields) returns (r: Scan<Lexeme>)
      requires start <= body < end <= |source.text| && index == end
      modifies this
      ensures index <= |source.text|
      ensures Took(r, source.WordOrGroup(start, body, end, fields), old(index))
    {
      if source.text[body..end] == "NEAR" && source.Says(end, "(") {
        r := NearGroup(start, end, fields);
        return;
      }
      var leaf := source.WordLeaf(body, end, fields);
      if leaf.Broken? {
        return Broken(leaf.fault);
      }
      return Read(source.OperandLexeme(start, end, Lone(leaf.value)).value.0);
    }

    method QuotedPhrase(start: nat, quote: nat, fields: Fields) returns (r: Scan<Lexeme>)
      requires index <= |source.text| && start <= quote < |source.text| && source.text[quote] == '"'
      modifies this
      ensures index <= |source.text|
      ensures Took(r, source.QuotedPhrase(start, quote, fields), old(index))
    {
      var closing := source.QuoteFrom(quote + 1);
      if closing.None? {
        return Broken(Fault(QuoteUnclosed, quote, "\""));
      }
      index := closing.value + 1;
      var quoted := source.text[quote + 1..closing.value];
      var leaf := source.LeafOf(source.tokens(quoted), fields, quote, closing.value + 1);
      if leaf.Broken? {
        return Broken(leaf.fault);
      }
      return Read(source.OperandLexeme(start, closing.value + 1, Lone(leaf.value)).value.0);
    }

    method NearMember(i: nat) returns (r: Scan<(Member, nat)>)
      requires i < |source.text| && !source.space(source.text[i]) && source.text[i] !in {',', ')'}
      ensures r == source.NearMember(i)
    {
      if source.text[i] == '"' {
        var closing := source.QuoteFrom(i + 1);
        if closing.None? {
          return Broken(Fault(QuoteUnclosed, i, "\""));
        }
        var quoted := source.LeafOf(source.tokens(source.text[i + 1..closing.value]), [], i, closing.value + 1);
        return if quoted.Broken? then Broken(quoted.fault) else Read((Member(quoted.value, true), closing.value + 1));
      }
      if source.Operator(i) {
        return Broken(Fault(NotNearOperand, i, source.text[i..i + 2]));
      }
      var end := WordEnd(i, true);
      var word := source.text[i..end];
      if source.ScopeEnd(i, end).Some? || Keyword(word).Some? || (i < end && source.text[i] == '-') {
        return Broken(Fault(NotNearOperand, i, word));
      }
      if i == end {
        return Broken(Fault(InsideNear, i, source.text[i..i + 1]));
      }
      var leaf := source.WordLeaf(i, end, []);
      return if leaf.Broken? then Broken(leaf.fault) else Read((Member(leaf.value, false), end));
    }

    method NearMembers(opening: nat) returns (r: Scan<(seq<Member>, nat)>)
      requires opening < |source.text| && source.text[opening] == '('
      ensures r == source.NearMembers(opening + 1, opening, [])
    {
      var i, members: seq<Member> := opening + 1, [];
      while true
        invariant opening < i <= |source.text|
        invariant source.NearMembers(opening + 1, opening, []) == source.NearMembers(i, opening, members)
        decreases |source.text| - i
      {
        var j := SkipSpace(i);
        if j == |source.text| {
          return Broken(Fault(NearUnclosed, opening, "("));
        }
        if source.text[j] in {',', ')'} {
          return Read((members, j));
        }
        var member := NearMember(j);
        if member.Broken? {
          return Broken(member.fault);
        }
        members, i := members + [member.value.0], member.value.1;
      }
    }

    method NearGroup(start: nat, opening: nat, fields: Fields) returns (r: Scan<Lexeme>)
      requires index <= |source.text| && start <= opening < |source.text| && source.text[opening] == '('
      modifies this
      ensures index <= |source.text|
      ensures Took(r, source.NearGroup(start, opening, fields), old(index))
    {
      var members := NearMembers(opening);
      if members.Broken? {
        return Broken(members.fault);
      }
      var distance, closing := NEAR_DISTANCE, members.value.1;
      if source.text[closing] == ',' {
        var number := source.Distance(closing);
        if number.None? {
          return Broken(Fault(DistanceExpected, closing, ","));
        }
        distance, closing := number.value.0, number.value.1;
      }
      r := GroupLexeme(start, closing, source.Leaves(members.value.0), distance, fields);
    }

    method GroupLexeme(start: nat, closing: nat, leaves: seq<Leaf>, distance: nat, fields: Fields) returns (r: Scan<Lexeme>)
      requires start <= closing < |source.text|
      modifies this
      ensures index <= |source.text|
      ensures Took(r, source.GroupLexeme(start, closing, leaves, distance, fields), old(index))
    {
      index := closing + 1;
      if leaves == [] {
        return Broken(Fault(NearEmpty, start, source.text[start..closing + 1]));
      }
      return Read(source.OperandLexeme(start, closing + 1, source.GroupNode(leaves, distance, fields)).value.0);
    }
  }
}
