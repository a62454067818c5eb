# A verified model of sci_etl_core's hard parts

sci_etl_core collects scientific records from listings, extracts entities from them, and makes them searchable. This
project models the parts of it whose correctness is not visible in any one function, and proves what they promise. Each
imperative part of the source is modelled as methods over the same state, proved against functions that describe one
step, and the promises are lemmas about those functions.

- **Boolean queries.** `Query` has the tree and its normalizer, `Evaluate` the direct evaluator with its NEAR walk
  (`NearWalk`, `NearHits`, `NearFields`), `CompileFts5` the compiler to one FTS5 expression or a SQL filter,
  `MatchText` the characters of that expression and FTS5's lexer and grammar, `QueryScanner` and `Parser` the scanner
  and the recursive-descent parser that reads through it, `QueryWords` what words mean as they are typed, `FirstFault` and
  `QueryFaults` what their errors point at, `QueryText` trees written as text and read back, and `StoreMemory` the
  scorer's traversal. FTS5's grammar follows section 3 of the
  SQLite FTS5 documentation, Full-text Query Syntax.
- **Resumable listings.** `ListingHead` and `ListingPosition` have the two ways a run keeps its place. `ListingSafety`
  proves what a newest-first run keeps page by page and over a whole run, `ListingProgress` how far it gets and where the
  next one takes up, and `ListingRuns` covers any sequence of runs, each cut short anywhere. `PageTasks` is one page's
  records as concurrent tasks under a budget, `TaskHistory` tells how they end from what they were answered, `Pipeline` is
  the run over the pages, and `NewestFirstPages` newest-first runs of it.
- **The CSV journal.** `CsvTable` has the rows and their rendering, `CsvJournal` the files and recovery, `JournalText` the
  journal's characters and reading them back, `CsvRuns` runs that crash at any step, `CsvExporter` the exporter's methods, and `DurableRows` a page's tasks writing to it.
- **The discovery graph.** `Communities` and `LabelPropagation` have label propagation, `EdgeSelection` the choice of
  edges, `Discovery` neighbour lists and reachability, `DiscoveryGraph` the graph around a seed, and `CollectionOrder` the
  order its records are collected in.
- **Fast forms.** `Ranking` is sorting with a tie-break; `TextRanking` and `VectorStore` prove their shortcuts against it.
  `Chunking` proves that merging undoes the sliding window.

`dafny verify dfyconfig.toml` checks the whole project.

## What was found

- A crash that tears the last journal line inside a multi-byte character leaves a journal that no later `open` can read:
  the lines are decoded as they are iterated over, outside the handler for a malformed entry, so the decoding error
  escapes and the flushed records before the tear stay out of reach
  (`src/sci_etl_core/exporters/csv_async.py:222-231`). `CsvRuns.EveryCutOpens` gives the exact condition, ASCII ids and
  cells; `CsvRuns.ACutLetterKeepsTheJournalShut` runs into the failure from a new file.
- NEAR finds two words near each other in two fields once a field's length and the distance reach 2^32 together
  (`src/sci_etl_core/search/evaluate.py:154-163`). `NearHits.FieldsStayApart` is the exact bound for the occurrences kept,
  `NearFields.TwoWordsAreDecided` for whether a document matches.
- A newest-first run whose probed page is the last of its listing and lacks the saved tail, because entries were deleted,
  ends there instead of going back to the head (`src/sci_etl_core/_listing_position.py:103-104`).
  `ListingSafety.ProbeGoesBack` says exactly when a run goes back, and `ListingSafety.ALostTailEndsTheRun` is a run that
  ends with two entries neither listed nor settled. What it saves is true of the listing (`ListingSafety.LostTailIsSafe`),
  so the next run lists them (`ListingSafety.EndedRunIsWhole`).
- The compiler needs the normal form: of an And outside it, all Nots but the first would be lost
  (`src/sci_etl_core/search/compile_fts5.py:127`, `CompileFts5.OnlyTheFirstNotIsRead`). Every caller normalizes first, and
  `Query.NormalIsNormalForm` proves that it is enough.

## Model

| member | source | states |
|---|---|---|
| `NearWalk.WalkNear` | `src/sci_etl_core/search/evaluate.py:119-151` | The walk terminates and leaves for each operand exactly the starts that belong to some choice of one start per operand, each ending at most `distance` before the latest start; nothing is left when there is no such choice |
| `NearWalk.SkipTo` | `src/sci_etl_core/search/evaluate.py:138-141` | Moving one cursor past starts that end too early drops no start of any match still ahead |
| `NearWalk.Align` | `src/sci_etl_core/search/evaluate.py:131-142` | When the alignment loop stops, the cursors stand at a match, or no match lies ahead of them |
| `NearWalk.AdvanceSmallest` | `src/sci_etl_core/search/evaluate.py:149-151` | Advancing the operand whose next start is smallest loses no start of a match that was not kept |
| `NearWalk.SkipIsSafe` | `src/sci_etl_core/search/evaluate.py:136-142` | A start earlier than the latest one allows is part of no match the cursors can still reach |
| `NearWalk.AdvanceIsSafe` | `src/sci_etl_core/search/evaluate.py:125-127` | After a match is kept, the operand with the least lookahead can move on: every start passed is kept or in no match |
| `NearWalk.PickMoves` | `src/sci_etl_core/search/evaluate.py:136-142` | In a match, any operand can be moved to another of its starts that stays in reach, and it remains a match |
| `NearHits.TrimNear` | `src/sci_etl_core/search/evaluate.py:98-116` | The trimmed mappings are those of the walk over the packed starts, and all empty when an operand has no occurrence |
| `NearHits.TrimIsExact` | `src/sci_etl_core/search/evaluate.py:98-116` | If every occurrence ends within `size` tokens and size + distance stays below one packed column, trimming keeps exactly the occurrences that stand near one occurrence of every other operand in one field |
| `NearHits.FieldsStayApart` | `src/sci_etl_core/search/evaluate.py:154-163` | For operands that fit, trimming is right for every document if and only if size + distance is below 2^32 |
| `NearHits.AcrossFieldsIsKept` | `src/sci_etl_core/search/evaluate.py:154-163` | At size + distance of 2^32 or more a concrete document has an occurrence kept that no single field justifies |
| `NearHits.PackIsInjective` | `src/sci_etl_core/search/evaluate.py:154-155` | Different fields and starts below 2^32 never share a packed position |
| `NearHits.UnpackedIsExact` | `src/sci_etl_core/search/evaluate.py:158-163` | Unpacking gives back precisely the field and range of each packed start |
| `NearHits.ComputeNearHits` | `src/sci_etl_core/search/evaluate.py:81-95` | Operands without a token get an empty mapping, a lone one keeps its occurrences, and several are trimmed together |
| `Evaluate.StartsAreOccurrences` | `src/sci_etl_core/search/evaluate.py:201-209` | The starts found are exactly the positions where the words stand, the last as a prefix if asked |
| `Evaluate.StartsAscend` | `src/sci_etl_core/search/evaluate.py:205-209` | They are found in order, each once |
| `Evaluate.OccurrencesAreExact` | `src/sci_etl_core/search/evaluate.py:166-182` | A leaf's mapping holds exactly the token ranges where its words stand, in the fields it names or in any if it names none |
| `Evaluate.OccurrencesAreInOrder` | `src/sci_etl_core/search/evaluate.py:172-182` | A field is in the mapping only with ranges, and these come by their starts, each once |
| `Evaluate.TermHolds` | `src/sci_etl_core/search/evaluate.py:194-198` | A term holds exactly when one of its fields has its words one after another, every field when it names none |
| `Evaluate.PhraseHolds` | `src/sci_etl_core/search/evaluate.py:194-198` | A phrase holds exactly when one of its fields has its words one after another, whatever spaces they are joined with |
| `Evaluate.TreeHolds` | `src/sci_etl_core/search/evaluate.py:185-198` | A tree holds as its operators say: a Not where its operand does not, an And where all do, an Or where one does |
| `Evaluate.SameFieldsSameVerdict` | `src/sci_etl_core/search/evaluate.py:185-198` | Documents that agree on the fields a query names get the same verdict, whatever their other fields hold |
| `Evaluate.MatchesDocument` | `src/sci_etl_core/search/evaluate.py:185-198` | The evaluator decides a tree by the meaning of its operators over its leaves, without normalizing it |
| `Evaluate.NearIsDecided` | `src/sci_etl_core/search/evaluate.py:65-95` | While the longest field and the distance stay below 2^32 together, a NEAR group holds exactly when its operands with tokens occur near each other in one field of the group's scope, any field when it names none |
| `NearFields.TwoWordsAreDecided` | `src/sci_etl_core/search/evaluate.py:154-163` | Two different words are decided as documented on every document of a size if and only if that size and the distance stay below 2^32 together |
| `NearFields.AcrossIsWrong` | `src/sci_etl_core/search/evaluate.py:154-163` | From that size on, a document with the words in two fields satisfies the query |
| `Query.Normalize` | `src/sci_etl_core/search/query.py:143-165` | Normalization terminates and computes the canonical form, including the second normalization of its own output |
| `Query.Flatten` | `src/sci_etl_core/search/query.py:168-176` | The normalized operands, with nested groups of the same kind opened up, in order |
| `Query.MergeNegations` | `src/sci_etl_core/search/query.py:179-186` | The negated operands become one Not of the normalized Or of what they negate, at the first one's place |
| `Query.NormalIsNormalForm` | `src/sci_etl_core/search/query.py:143-191` | The result has no And in And, no Or in Or, no double Not, no group of fewer than two, at most one Not per And and an operand that is none |
| `Query.NormalFormIsFixed` | `src/sci_etl_core/search/query.py:143-191` | A tree in normal form is left as it is |
| `Query.NormalIsIdempotent` | `src/sci_etl_core/search/query.py:143-191` | Normalizing twice is normalizing once |
| `Query.NormalHolds` | `src/sci_etl_core/search/query.py:143-191` | The canonical form holds exactly where the tree does, whatever the leaves are |
| `Query.NormalConsists` | `src/sci_etl_core/search/query.py:143-191` | What holds of every leaf goes on to hold, groups stay filled, and no Not comes in |
| `Query.NormalKeepsLeaves` | `src/sci_etl_core/search/query.py:143-191` | Every leaf is kept, as often as it occurred and with the same sign |
| `Query.NotFreeKeepsOrder` | `src/sci_etl_core/search/query.py:154-154` | A query without a Not keeps its words, phrases and groups in the order they are written in |
| `Query.MergedStandsFirst` | `src/sci_etl_core/search/query.py:179-186` | Several Nots become one at the place of the first, over what they negate in order, and the other operands stay in order |
| `CompileFts5.CompileNode` | `src/sci_etl_core/search/compile_fts5.py:115-128` | The imperative compiler emits the expression the specification compiles, or refuses the same trees |
| `CompileFts5.MatchReadsBack` | `src/sci_etl_core/search/compile_fts5.py:115-163` | Read with FTS5's precedence, NOT before AND before OR, the tokens of a compiled normal form are the tree that was meant, all of them |
| `CompileFts5.MatchMeansQuery` | `src/sci_etl_core/search/compile_fts5.py:50-68` | A compiled query selects a document exactly when the query holds for it, whatever its leaves match |
| `CompileFts5.OnlyTheFirstNotIsRead` | `src/sci_etl_core/search/compile_fts5.py:127-127` | Outside normal form the compiler loses a Not: a concrete And with two Nots compiles to an expression that selects too much |
| `CompileFts5.RankedNeedsAHit` | `src/sci_etl_core/search/compile_fts5.py:18-33` | A query that can be ranked holds for no document in which none of its leaves does |
| `CompileFts5.RankableByTheRule` | `src/sci_etl_core/search/compile_fts5.py:18-33` | A query is rankable if and only if its canonical form is by the documented rule: a leaf is, an Or when every operand is, an And when every operand but its Not is and what the Not negates is, a Not never |
| `CompileFts5.NotFreeIsRankable` | `src/sci_etl_core/search/compile_fts5.py:18-33` | Every query without a Not can be ranked |
| `CompileFts5.Filter` | `src/sci_etl_core/search/compile_fts5.py:98-112` | The imperative filter writes the SQL condition and appends its parameters in the order of their placeholders |
| `CompileFts5.FilterMeansQuery` | `src/sci_etl_core/search/compile_fts5.py:71-89` | For every query the SQL condition holds exactly where the query does, and takes all its parameters, each once, in order |
| `CompileFts5.FilterTakesTheLargest` | `src/sci_etl_core/search/compile_fts5.py:71-89` | Each parameter of a filter is one maximal rankable subtree, in the order they stand in |
| `CompileFts5.SendableIs` | `src/sci_etl_core/search/compile_fts5.py:162-163` | What is sent of a text holds no NUL and differs from it in nothing but spaces for NULs |
| `CompileFts5.StoreAgreesWithEvaluator` | `src/sci_etl_core/search/compile_fts5.py:50-89` | The ranked expression and the filter both select exactly the documents the evaluator accepts |
| `MatchText.StringReadsBack` | `src/sci_etl_core/search/compile_fts5.py:162-163` | A quoted text is read back whole by a reader that ends at the first quote not doubled |
| `MatchText.LexReadsPieces` | `src/sci_etl_core/search/compile_fts5.py:131-163` | FTS5's lexer splits the text at the pieces it was written from: no word can end its quotes or run into another |
| `MatchText.LeafReadsBack` | `src/sci_etl_core/search/compile_fts5.py:131-160` | A column filter, a phrase, a prefix phrase or a NEAR group with its distance is read back as the leaf it was written for |
| `MatchText.CompileAlternates` | `src/sci_etl_core/search/compile_fts5.py:115-151` | No compiled expression has two leaves side by side, where their quotes would join |
| `MatchText.TextReadsBack` | `src/sci_etl_core/search/compile_fts5.py:115-163` | The characters of a compiled query, lexed and parsed as FTS5 does, are exactly the tree the compiler means |
| `MatchText.TextMeansQuery` | `src/sci_etl_core/search/compile_fts5.py:50-68` | The MATCH text selects exactly the documents the query holds for, whatever its words contain |
| `Parser.DescentParser.ParseText` | `src/sci_etl_core/search/parser.py:342-348` | The descent parser accepts and refuses as the grammar does, with the same tree and the same error, unless it needs the lexeme the scanner cannot read |
| `Parser.DescentParser.ParseDisjunction` | `src/sci_etl_core/search/parser.py:354-359` | One disjunction from the current lexeme on, leaving the parser after it |
| `Parser.DescentParser.ParseConjunction` | `src/sci_etl_core/search/parser.py:361-367` | One conjunction, its ANDs written or implied |
| `Parser.DescentParser.ParseNegation` | `src/sci_etl_core/search/parser.py:369-375` | A run of NOTs counts by its parity |
| `Parser.DescentParser.ParseGroup` | `src/sci_etl_core/search/parser.py:393-403` | A parenthesized group, refused when it is empty, unclosed or too deep |
| `Parser.DerivedIsParsed` | `src/sci_etl_core/search/parser.py:336-403` | A derivation of the text is parsed to its tree if and only if its groups nest no deeper than the limit |
| `Parser.ParsedIsDerived` | `src/sci_etl_core/search/parser.py:336-403` | Whatever is parsed has a derivation in the grammar, and its tree is the one returned |
| `FirstFault.ParseReads` | `src/sci_etl_core/search/parser.py:336-403` | The descent parser refuses what a single reading from left to right refuses, with the same error, and accepts the rest |
| `FirstFault.RefusedAtTheFirstFault` | `src/sci_etl_core/search/parser.py:87-89` | A refused query is refused at its first fault: what stands before it begins a query that parses, no query that begins with it does, and the error is the one for that place |
| `FirstFault.TextRefusedAtTheFirstFault` | `src/sci_etl_core/search/parser.py:87-89` | The same of the text: a piece the scanner cannot read is reported only when everything before it begins a query that parses |
| `Parser.DerivationDepth` | `src/sci_etl_core/search/parser.py:393-396` | The depth the limit is held against is the deepest nesting of parentheses in the text |
| `Parser.PrintThenParse` | `src/sci_etl_core/search/parser.py:59-97` | Lexemes that spell a tree with its operators and parentheses parse to its canonical form if and only if the parentheses nest within the limit |
| `Parser.ParseSource` | `src/sci_etl_core/search/parser.py:59-97` | Scanning as it goes, the parser returns the canonical tree of the whole text, or the fault it meets first: what is found before the scanner's first fault stands |
| `Parser.DescentParser.Advance` | `src/sci_etl_core/search/parser.py:350-352` | The parser stays one lexeme behind the scanner, whose fault shows only when the lexeme it spoils is needed |
| `QueryScanner.Scanner.Next` | `src/sci_etl_core/search/parser.py:187-200` | The scanner takes the lexeme, or finds the fault, that one scan from its position gives, and stays where it is at the end |
| `QueryScanner.Scanner.Word` | `src/sci_etl_core/search/parser.py:202-226` | A keyword, a NEAR group, or a word or quoted phrase with the field scope written before it |
| `QueryScanner.Scanner.ScopedFields` | `src/sci_etl_core/search/parser.py:301-309` | The named fields in their own order, or the first unknown name with its position |
| `QueryScanner.Scanner.NearGroup` | `src/sci_etl_core/search/parser.py:228-284` | The members of a group up to its distance and closing parenthesis, or the first thing that does not belong there |
| `QueryScanner.Source.NextIsSound` | `src/sci_etl_core/search/parser.py:187-299` | A scan skips spaces only; its lexeme or fault is what the query says at its position, and an operand is one the constructors accept |
| `QueryWords.OperatorsAreUpperCase` | `src/sci_etl_core/search/parser.py:81-82` | A word is an operator exactly when it is AND, OR or NOT in upper case; any other is an operand or a fault |
| `QueryWords.BareWordMeans` | `src/sci_etl_core/search/parser.py:64-67` | A word without a scope is a term, the phrase of its tokens, or with a star directly behind one word a prefix term, in the default fields; without a token or with a star elsewhere it is refused where it stands |
| `QueryWords.QuotedPhraseMeans` | `src/sci_etl_core/search/parser.py:66-66` | Quoted words are a phrase, one of them a term, and without a token the quoted text is refused whole |
| `QueryWords.UnclosedQuoteIsBlamed` | `src/sci_etl_core/search/parser.py:290-294` | A quote that is never closed is refused where it opens |
| `QueryWords.CaseIsIgnored` | `src/sci_etl_core/search/parser.py:68-69` | A field is named by its letters in any case, and by nothing else |
| `QueryWords.ScopedWordMeans` | `src/sci_etl_core/search/parser.py:68-69` | A scope is read from names in any case and order, and the word behind it is searched for in those fields, in their own order |
| `QueryWords.UnknownFieldIsBlamed` | `src/sci_etl_core/search/parser.py:301-309` | The first name of a scope that is no field is reported where it stands |
| `QueryWords.ScopeAloneIsRefused` | `src/sci_etl_core/search/parser.py:218-226` | A scope with nothing directly behind it is refused whole |
| `QueryWords.GroupWithoutDistance` | `src/sci_etl_core/search/parser.py:70-73` | A group without a number reaches ten tokens |
| `QueryWords.GroupOfOnePhrase` | `src/sci_etl_core/search/parser.py:73-74` | A group of one quoted phrase searches for its words near each other |
| `QueryWords.DistanceIsRead` | `src/sci_etl_core/search/parser.py:266-273` | A distance is read behind its comma and before the closing parenthesis, spaces around it or not |
| `QueryWords.BareMemberMeans` | `src/sci_etl_core/search/parser.py:251-263` | A word in a group is a member, and refused exactly when it is an operator, has a scope or begins with a dash |
| `QueryWords.QuotedMemberMeans` | `src/sci_etl_core/search/parser.py:240-248` | A quoted phrase is a member of a group, read like one outside it |
| `QueryFaults.LexemesTile` | `src/sci_etl_core/search/parser.py:181-299` | Every character of a query that scans is a space or part of exactly one lexeme |
| `QueryFaults.ErrorsAreLocated` | `src/sci_etl_core/search/parser.py:83-87` | Whatever the text, a refused query says the reported token at the reported position |
| `QueryFaults.ParsedTreesBuild` | `src/sci_etl_core/search/parser.py:59-97` | Whatever the text, a parsed tree is one the constructors accept, and in canonical form |
| `QueryFaults.LexemesIgnoreScope` | `src/sci_etl_core/search/parser.py:145-150` | Scanning a text again without default fields gives the same lexemes but for their fields, and the same fault |
| `QueryFaults.ParseRanked` | `src/sci_etl_core/search/parser.py:100-118` | The tree if it can be ranked, and otherwise the place of the first negation found by scanning again |
| `QueryFaults.UnrankableIsLocated` | `src/sci_etl_core/search/parser.py:100-118` | A query that parses but cannot be ranked has a NOT, and the error points at the first one |
| `QueryFaults.ParseSemantic` | `src/sci_etl_core/search/parser.py:121-142` | The tree with its text to embed, or the place of the first prefix term found by scanning again |
| `QueryFaults.WordlessIsLocated` | `src/sci_etl_core/search/parser.py:121-142` | A query that can be ranked but leaves nothing to embed has a prefix term, or a NEAR group of them, and the error points at the first one |
| `QueryFaults.LacksWholeWordIs` | `src/sci_etl_core/search/parser.py:157-164` | What is blamed then is a prefix term, or a NEAR group of prefix terms only |
| `QueryFaults.CollectMeaning` | `src/sci_etl_core/search/query.py:271-282` | The words outside every Not and every prefix term, in the order written |
| `QueryFaults.WholeWordsAre` | `src/sci_etl_core/search/query.py:250-282` | A word is embedded exactly when a term that is no prefix, or a phrase or group member, holds it outside every Not |
| `QueryFaults.WholeWordsKeepOrder` | `src/sci_etl_core/search/query.py:253-254` | The words come in the order written, through every group |
| `QueryFaults.MeaningIsText` | `src/sci_etl_core/search/query.py:250-268` | The text to embed is empty if and only if no such word is left |
| `QueryText.OperandReads` | `src/sci_etl_core/search/parser.py:187-299` | A word, phrase, prefix term or NEAR group, with or without its scope, is scanned back as the leaf it was written for |
| `QueryText.GroupReads` | `src/sci_etl_core/search/parser.py:228-284` | The members and the distance of a written NEAR group are read back |
| `QueryText.SpacedReads` | `src/sci_etl_core/search/parser.py:181-299` | Operators, parentheses and operands written with spaces between them are scanned as exactly those lexemes |
| `QueryText.TextReadsBack` | `src/sci_etl_core/search/parser.py:59-97` | A tree written as characters parses to its canonical form if and only if its parentheses nest within the limit; otherwise it is refused |
| `StoreMemory.CountedHits` | `src/sci_etl_core/search/store_memory.py:244-261` | Counting consumes exactly the occurrences of the leaves the query yields, in order; its verdict is the evaluator's, and leaves under a Not or a failing branch count nothing |
| `ListingHead.NewestFirstCursor.ObservePage` | `src/sci_etl_core/_listing_head.py:70-91` | One page moves the cursor's state and metadata as its mode prescribes and returns where to fetch next |
| `ListingHead.NewestFirstCursor.ListingEnded` | `src/sci_etl_core/_listing_head.py:93-100` | An empty page adopts the scan, falls back from a probe, or stops |
| `ListingHead.NewestFirstCursor.ObserveHead` | `src/sci_etl_core/_listing_head.py:102-126` | A head page is located against the saved ids; past the last of them the head is saved and the run jumps or pages on |
| `ListingHead.NewestFirstCursor.ObserveProbe` | `src/sci_etl_core/_listing_head.py:128-139` | A probed page without a saved tail id sends the run back to the end of the head |
| `ListingHead.NewestFirstCursor.Locate` | `src/sci_etl_core/_listing_head.py:163-169` | The shift found is that of the first listed id that was saved |
| `ListingPosition.NewestFirstPosition.Advance` | `src/sci_etl_core/_listing_position.py:92-106` | A page moves the position on, or ends the run, with the metadata of its cursor |
| `ListingPosition.CursorPosition.Advance` | `src/sci_etl_core/_listing_position.py:46-57` | A page moves the cursor, and the saved cursor only while every page settled |
| `ListingPosition.SavedCursorWaits` | `src/sci_etl_core/_listing_position.py:46-57` | After any pages the saved cursor is that of the first page with an unsettled record, or of the next page when there is none |
| `ListingPosition.EndIsSavedWhenSettled` | `src/sci_etl_core/_listing_position.py:46-57` | At the end of the listing a cursor past the end is saved only if every page settled |
| `ListingPosition.EndIsBehindTheEntries` | `src/sci_etl_core/pipeline_async.py:357-361` | A settled listing by offset is left behind its last entry, any other at its first page |
| `ListingSafety.PageKeeps` | `src/sci_etl_core/_listing_head.py:70-161` | In every mode a page keeps what the metadata promises: every unsettled entry lies at or before the saved ids, or at or after the saved cursor; jumps ahead pass settled entries only |
| `ListingSafety.AdvanceKeeps` | `src/sci_etl_core/_listing_position.py:92-132` | The same for empty and last pages; what is saved then is true of the listing |
| `ListingSafety.SafeForGrows` | `src/sci_etl_core/_listing_head.py:21-43` | Entries put on top between runs, and records settled since, leave the promise true |
| `ListingSafety.LocatesTheShift` | `src/sci_etl_core/_listing_head.py:163-169` | With distinct ids, a shift that is found is the number of entries put on top since |
| `ListingSafety.RunStops` | `src/sci_etl_core/_listing_position.py:92-132` | A run over a listing of n entries goes through at most 3n + 3 points |
| `ListingSafety.RunJumpsBackOnce` | `src/sci_etl_core/_listing_head.py:141-145` | A run goes back at most once, from the probed page |
| `ListingSafety.RunSkipsNothing` | `src/sci_etl_core/_listing_head.py:27-35` | Every entry before a run's offset was on one of its pages or is settled |
| `ListingSafety.EndedRunIsWhole` | `src/sci_etl_core/_listing_position.py:92-132` | A run that stops at the end of its listing has listed every entry that was not settled |
| `ListingSafety.ProbeGoesBack` | `src/sci_etl_core/_listing_head.py:128-145` | A probe goes back to the end of the head exactly when it finds nothing, or finds no saved tail id on a page with a next |
| `ListingSafety.PassedHeadHolds` | `src/sci_etl_core/_listing_head.py:102-126` | Whatever became of the entries saved earlier, the head a run passes and saves is the head of its own listing |
| `ListingSafety.LostTailIsSafe` | `src/sci_etl_core/_listing_head.py:141-145` | A probe that misses the saved tail saves what is true of the listing, even if entries seen by earlier runs are gone |
| `ListingSafety.ALostTailEndsTheRun` | `src/sci_etl_core/_listing_position.py:103-104` | A concrete run, after entries were deleted, probes the last page, misses the tail, and ends without having listed two unsettled entries |
| `ListingProgress.PlainScanSaves` | `src/sci_etl_core/_listing_head.py:40-42` | Without saved ids, whatever pages a run gets: the saved cursor names the entry where the first unsettled page begins, the tail is the end of the page before it, and the head is the beginning of the first page |
| `ListingProgress.UnfoundScanSaves` | `src/sci_etl_core/_listing_head.py:40-42` | A run that finds no saved id before its listing ends saves what such a scan saves |
| `ListingProgress.RejectedRunScans` | `src/sci_etl_core/_listing_position.py:113-120` | A run whose cursor is rejected forgets what was saved and scans from the top |
| `ListingProgress.HeadIsPassed` | `src/sci_etl_core/_listing_head.py:102-126` | The first page that passes the saved ids saves the new head, the first page's ids or the end of the last unsettled page, and sends the run to the saved offset plus the shift less a page if that lies beyond it, and on otherwise |
| `ListingProgress.NextRunJumps` | `src/sci_etl_core/_listing_head.py:27-31` | After entries are put on top, the next run of a plain scan jumps to that offset exactly when it lies beyond the head, and pages on otherwise |
| `ListingProgress.BacklogKeepsPlace` | `src/sci_etl_core/_listing_head.py:147-150` | Behind the head the saved cursor and tail wait where the first unsettled page begins, and the saved head stays |
| `ListingProgress.ProbeKeepsPlace` | `src/sci_etl_core/_listing_head.py:128-139` | A probe that finds some of the saved tail goes on behind its page, which is the backlog's end if it settled and its beginning otherwise |
| `ListingProgress.EndClearsTheCap` | `src/sci_etl_core/_listing_position.py:122-129` | A run that comes to the end of its listing no longer says that the source stopped at its cap |
| `ListingRuns.HistoryIsSound` | `src/sci_etl_core/_listing_head.py:19-43` | After any sequence of runs, pages, saves, caps, rejected cursors and cuts, the metadata on disk keeps its promise |
| `ListingRuns.NextRunIsRight` | `src/sci_etl_core/_listing_head.py:19-43` | After any such history the next run stops, goes back at most once, and leaves no entry behind that it did not list and that was not settled; if it stops at the end of the listing, no entry at all |
| `ListingRuns.RunIsFollowed` | `src/sci_etl_core/_listing_position.py:92-132` | The runs of these histories are runs of the position over their pages, and what they save is what it holds |
| `PageTasks.ActionsAreSound` | `src/sci_etl_core/pipeline_async.py:736-821` | Under every interleaving, free slots and relevant records in flight, written or processed make up the page's budget, permits are respected, and only irrelevant or durable records are marked |
| `PageTasks.BudgetIsConserved` | `src/sci_etl_core/pipeline_async.py:81-98` | Each step of each task conserves the budget |
| `PageTasks.PageKeepsItsWord` | `src/sci_etl_core/pipeline_async.py:736-765` | A finished page processed no more than its budget, and reports itself complete only if every id is marked |
| `PageTasks.CompleteIsAllSettled` | `src/sci_etl_core/pipeline_async.py:109-111` | A page is complete if and only if every record on it was dismissed or processed |
| `PageTasks.PageStops` | `src/sci_etl_core/pipeline_async.py:736-765` | A page takes at most four steps a record and one for the flush |
| `PageTasks.PageGoesOnWithPermits` | `src/sci_etl_core/pipeline_async.py:174-178` | With a permit an unfinished page can always go on; without one its records wait forever |
| `PageTasks.SettleRecord` | `src/sci_etl_core/pipeline_async.py:802-821` | One record settled alone does what its task does in the interleaving: same outcome, slots, marks and durable records |
| `TaskHistory.OutcomesFollowTheAnswers` | `src/sci_etl_core/pipeline_async.py:736-821` | Under every interleaving a record is dismissed only after it was judged irrelevant, written only after it was judged relevant, failed exactly when its task met a fault, and the marks, buffer and durable records are those the steps taken put there |
| `TaskHistory.MarkedAreTheSettled` | `src/sci_etl_core/pipeline_async.py:802-821` | What a page marked is exactly its dismissed and processed records |
| `TaskHistory.NoSlotNoWork` | `src/sci_etl_core/pipeline_async.py:802-809` | While no slot is free and none comes back, no further record is judged, and none is worked on that was not |
| `TaskHistory.AloneEndsAsAnswered` | `src/sci_etl_core/pipeline_async.py:802-821` | One record's outcome, slot and mark from the answers of the relevance filter, the exporter and the state manager |
| `TaskHistory.PageLeavesWhatItsTasksSay` | `src/sci_etl_core/pipeline_async.py:752-800` | What a page leaves and reports is what its tasks, its flush and the marks behind the flush say |
| `TaskHistory.CutLeavesWhatTheTasksSay` | `src/sci_etl_core/pipeline_async.py:736-750` | A page cut short leaves what its tasks did until then |
| `Pipeline.ProcessPage` | `src/sci_etl_core/pipeline_async.py:752-785` | Sorting results, flushing and settling reports exactly what became of each record, whether or not the flush failed |
| `Pipeline.RunPages` | `src/sci_etl_core/pipeline_async.py:484-588` | The loop ends, counts and saves as the turns of the run prescribe, over any events |
| `Pipeline.CandidatesAre` | `src/sci_etl_core/pipeline_async.py:601-613` | A listed record gets a task exactly when it is not processed, not quarantined and can be tracked |
| `Pipeline.CandidatesKeepOrder` | `src/sci_etl_core/pipeline_async.py:601-613` | The tasks come in the order listed |
| `Pipeline.NeverReprocessed` | `src/sci_etl_core/pipeline_async.py:532-532` | No page of a run has a task for a record that was marked before it, or that is quarantined |
| `Pipeline.KnownPageIsComplete` | `src/sci_etl_core/pipeline_async.py:403-404` | A page of nothing but processed, quarantined and untrackable records processes nothing and is complete |
| `Pipeline.FaultlessPageIsWhole` | `src/sci_etl_core/pipeline_async.py:802-821` | A page without a fault or a stop uses up the limit or leaves no record unsettled |
| `Pipeline.StalledRunAborts` | `src/sci_etl_core/pipeline_async.py:556-571` | A page aborts the run exactly when it is the second to stall with no progress since the first, or the last of the listing with such a stall |
| `Pipeline.RunEndsAsItShould` | `src/sci_etl_core/pipeline_async.py:514-588` | Each way a run ends has its own condition, both ways |
| `Pipeline.RunRestarts` | `src/sci_etl_core/pipeline_async.py:367-370` | A run starts over from the first page if and only if the source rejected its cursor |
| `Pipeline.RunRestartsOnce` | `src/sci_etl_core/pipeline_async.py:520-531` | A second rejection aborts the run |
| `Pipeline.LimitOfNothing` | `src/sci_etl_core/pipeline_async.py:514-514` | A run with a limit of nothing is over before its first page |
| `Pipeline.RunKeepsItsWord` | `src/sci_etl_core/pipeline_async.py:514-588` | However a run ends, it processed no more than `total_limit`, marked only irrelevant or durable records, and committed failures only up to the last page that processed a record; a run still going tolerated fewer than two stalls |
| `Pipeline.SavedCursorIsSafe` | `src/sci_etl_core/pipeline_async.py:347-350` | The cursor on disk never lies past a page of the run with a record that is neither processed nor quarantined |
| `NewestFirstPages.PageTurns` | `src/sci_etl_core/pipeline_async.py:752-785` | A page that reports itself complete after its tasks is one whose records are all settled, as the newest-first position takes it |
| `NewestFirstPages.PageIsProcessedAndTurned` | `src/sci_etl_core/_listing_position.py:92-132` | A page of a newest-first run is processed as the pipeline does and turned as the position does |
| `NewestFirstPages.EventsAreKept` | `src/sci_etl_core/pipeline_async.py:514-588` | Over newest-first runs, each with its own limit and its own quarantine and cut anywhere, even within a page, the metadata stays true of the listing, settled means processed or quarantined in some run, and the limit holds |
| `NewestFirstPages.SkippedIsSettled` | `src/sci_etl_core/_listing_head.py:19-43` | What the metadata on disk lets the next newest-first run skip was quarantined in one of the runs so far, processed before the first, irrelevant, or is durable |
| `DurableRows.StepsStayCoupled` | `src/sci_etl_core/pipeline_async.py:802-821` | Under every interleaving of tasks over any pages, what the tasks take for durable is in the exporter's journal |
| `DurableRows.MarkedRowsAreShown` | `src/sci_etl_core/pipeline_async.py:736-821` | Wherever the run crashes, even within an append, opening the CSV shows the last lasting write of every relevant record it marked |
| `Pipeline.NoProgressNoAttempt` | `src/sci_etl_core/pipeline_async.py:372-380` | A run in which no page processes a record counts no failed attempt |
| `CsvTable.CellsComeBack` | `src/sci_etl_core/exporters/csv_async.py:29-45` | Every cell is restored by unescaping, and what is written starts like a formula only if it is a plain number |
| `CsvTable.RenderedHasGet` | `src/sci_etl_core/exporters/csv_async.py:243-249` | A rendered file holds each record's rows as they were in memory |
| `CsvTable.ReplayAgain` | `src/sci_etl_core/exporters/csv_async.py:199-206` | Replaying a journal into a table that already shows it renders the same file, row for row |
| `CsvJournal.RecoveryIsIdempotent` | `src/sci_etl_core/exporters/csv_async.py:199-206` | Recovering shows what the disk showed, and recovering again changes nothing |
| `CsvJournal.RecoveryCanBeCut` | `src/sci_etl_core/exporters/csv_async.py:243-255` | A recovery cut between replacing the table and deleting the journal is finished by the next one |
| `CsvJournal.TornDecodesOnBoundary` | `src/sci_etl_core/exporters/csv_async.py:222-226` | A torn append, and so the journal it is on, decodes if and only if it was cut between characters |
| `CsvJournal.PayloadIsAscii` | `src/sci_etl_core/exporters/csv_async.py:151-155` | What a flush appends is ASCII if and only if every id and cell of its records is |
| `JournalText.StringReadsBack` | `src/sci_etl_core/exporters/csv_async.py:151-155` | Any id or cell, written as a JSON string, is read back, whatever characters it holds |
| `JournalText.LineReadsBack` | `src/sci_etl_core/exporters/csv_async.py:222-231` | A journal line is read back as the record and rows it was written from |
| `JournalText.JsonHasNoBreak` | `src/sci_etl_core/exporters/csv_async.py:222-225` | No id and no cell breaks a journal line |
| `JournalText.TornJournalReadsBack` | `src/sci_etl_core/exporters/csv_async.py:222-231` | Wherever an append broke off between characters, what is left is read back as the entries whose lines are whole, in order |
| `JournalText.TornAreWhole` | `src/sci_etl_core/exporters/csv_async.py:222-226` | As many entries last as fit whole into the bytes written |
| `CsvRuns.CrashKeepsAPrefix` | `src/sci_etl_core/exporters/csv_async.py:75-81` | After any history cut at any step, a prefix of the run's writes that includes every flushed one lasts, and opening shows each record's last write among those that lasted |
| `CsvRuns.FlushCanBeCut` | `src/sci_etl_core/exporters/csv_async.py:233-241` | A crash within an append can be opened if and only if it fell between characters of the payload |
| `CsvRuns.EveryCutOpens` | `src/sci_etl_core/exporters/csv_async.py:222-241` | Wherever the append of a flush is cut, the journal can be opened, if and only if every id and cell it was to append is ASCII |
| `CsvRuns.ACutLetterKeepsTheJournalShut` | `src/sci_etl_core/exporters/csv_async.py:222-231` | For every letter that is not ASCII, a run from a new file flushes one record, crashes while journaling a record named by the letter, and leaves a journal that cannot be opened |
| `CsvExporter.AsyncCsvExporter.OpenFiles` | `src/sci_etl_core/exporters/csv_async.py:131-142` | Opening loads the table, replays and publishes a journal, or fails and leaves the files alone |
| `CsvExporter.AsyncCsvExporter.Write` | `src/sci_etl_core/exporters/csv_async.py:144-155` | A write replaces the record's rows in memory and queues them |
| `CsvExporter.AsyncCsvExporter.Flush` | `src/sci_etl_core/exporters/csv_async.py:157-169` | A flush moves the queued records to the end of the journal |
| `CsvExporter.AsyncCsvExporter.Close` | `src/sci_etl_core/exporters/csv_async.py:171-186` | Closing publishes the rows and leaves no journal |
| `Communities.SwitchGains` | `src/sci_etl_core/search/graph.py:168-177` | A record that switches community strictly raises the total weight of edges inside communities |
| `Communities.MoveGains` | `src/sci_etl_core/search/graph.py:168-177` | The gain of a move is what joins the record to its new community less what joined it to its old one |
| `Communities.EnoughPassesConverge` | `src/sci_etl_core/search/graph.py:165-180` | As many passes as there are labellings always converge |
| `Communities.PassIsStable` | `src/sci_etl_core/search/graph.py:166-180` | A pass changes no label if and only if no record has a strictly heavier neighbouring community |
| `Communities.PassVisitsInOrder` | `src/sci_etl_core/search/graph.py:144-148` | In a pass each record, seen with the labels its predecessors already got, takes the lowest of the heaviest neighbouring labels when it is strictly heavier than its own, and keeps its own otherwise |
| `Communities.PassesAreIterated` | `src/sci_etl_core/search/graph.py:165-180` | The labels are those of as many passes as it takes, up to the limit, until one changes nothing |
| `Communities.CommunitiesConverge` | `src/sci_etl_core/search/graph.py:131-184` | With n records, n to the n passes are always enough |
| `Communities.ConvergedCommunitiesAreStable` | `src/sci_etl_core/search/graph.py:144-149` | Communities reported as converged leave no record with a strictly heavier neighbouring community |
| `Communities.CommunitiesIgnoreOrder` | `src/sci_etl_core/search/graph.py:136-138` | The result does not depend on the order or repetition of nodes and edges |
| `Communities.AdjacencyHoldsTheHeaviest` | `src/sci_etl_core/search/graph.py:140-142` | The adjacency holds the heaviest edge of each pair, in both directions, and nothing else |
| `Communities.NumbersGoBySmallestMember` | `src/sci_etl_core/search/graph.py:151-151` | Communities are numbered in the order of their smallest members |
| `LabelPropagation.LabelCommunities` | `src/sci_etl_core/search/graph.py:131-184` | The loops over dicts compute the communities of the specification, and refuse a pass limit below one |
| `LabelPropagation.Visit` | `src/sci_etl_core/search/graph.py:168-177` | A visit switches to the lowest of the heaviest neighbouring labels when it is strictly heavier |
| `EdgeSelection.SelectEdges` | `src/sci_etl_core/search/graph.py:98-128` | The merged edges are those of the specification, sorted by source, target and kind |
| `EdgeSelection.SelectedAreBest` | `src/sci_etl_core/search/graph.py:98-128` | An edge is selected if and only if a list offers it and none offers a heavier one of its pair and kind |
| `EdgeSelection.SelectedAreSorted` | `src/sci_etl_core/search/graph.py:128-128` | The edges come by source, then target, then kind, each pair and kind once |
| `EdgeSelection.SelectedKeepTheRules` | `src/sci_etl_core/search/graph.py:107-113` | No selected edge dangles, is a loop or is too light; with `mutual_only` one source of its kind lists each end for the other |
| `EdgeSelection.ListedAreSelected` | `src/sci_etl_core/search/graph.py:107-113` | Every admissible neighbour a list holds is joined by an edge of its kind, as heavy or heavier |
| `Discovery.CleanedAreNearest` | `src/sci_etl_core/search/graph.py:319-324` | A cleaned list holds each neighbour once with its heaviest weight, never the record itself, and leaves a neighbour out only for a full list of nearer ones |
| `Discovery.NearestComeFirst` | `src/sci_etl_core/search/graph.py:319-324` | Nearest first is heaviest first, and of one weight the lower id first |
| `Discovery.Connected` | `src/sci_etl_core/search/graph.py:336-348` | The worklist reaches exactly the records a path of edges joins to the seed |
| `DiscoveryGraph.Grow` | `src/sci_etl_core/search/graph.py:257-274` | Growth collects distinct records, the seed first, and fetches each list once; they are the first `max_nodes` in breadth-first order, each record's neighbours nearest first |
| `DiscoveryGraph.CollectedAreDrawn` | `src/sci_etl_core/search/graph.py:257-272` | A chain of expansions no longer than the depth leads to every record collected |
| `DiscoveryGraph.DrawnAreCollected` | `src/sci_etl_core/search/graph.py:257-272` | Unless the cap stops it, every record such a chain leads to is collected |
| `DiscoveryGraph.DrawnAre` | `src/sci_etl_core/search/graph.py:327-333` | A record expands to exactly the neighbours some source lists for it, each with its heaviest weight, if that is heavy enough |
| `CollectionOrder.CollectedInTurn` | `src/sci_etl_core/search/graph.py:257-272` | Each record collected comes from the list of the first collected record that draws it; the lists are taken in the order of their records, each from its nearest entry on |
| `DiscoveryGraph.ListsOfAre` | `src/sci_etl_core/search/graph.py:276-281` | The edges are selected from every source's lists, each under its kind |
| `DiscoveryGraph.BuildDiscoveryGraph` | `src/sci_etl_core/search/graph.py:224-298` | The graph's nodes are exactly the collected records the selected edges connect to the seed, in the order collected, its edges all selected edges between them, in order, and its communities those of that graph |
| `VectorStore.QueriesSeeTheFile` | `src/sci_etl_core/embeddings/store_sqlite_async.py:222-238` | Over any history of own writes, rolled back or not, commits by others and reopens, a query scores exactly the stored rows of its dimension |
| `VectorStore.WrittenAre` | `src/sci_etl_core/embeddings/store_sqlite_async.py:184-189` | A write leaves under each key the last chunk written for it, and of the other rows exactly those not of the record it replaces |
| `VectorStore.WrittenAscend` | `src/sci_etl_core/embeddings/store_sqlite_async.py:42-45` | The rows stay in the order of their rowids, what is written last behind the rest |
| `VectorStore.EventsReachTheFile` | `src/sci_etl_core/embeddings/store_sqlite_async.py:184-189` | A committed write reaches the file, one rolled back does not, and no query or reopening changes it |
| `VectorStore.OfDimAre` | `src/sci_etl_core/embeddings/store_sqlite_async.py:47-47` | A snapshot holds exactly the rows of its dimension |
| `VectorStore.CutoffKeepsTheBest` | `src/sci_etl_core/embeddings/store_sqlite_async.py:204-213` | Sorting only the rows that reach the partition's cutoff gives the first rows of the full stable sort |
| `VectorStore.BestHitsAreBest` | `src/sci_etl_core/embeddings/store_sqlite_async.py:191-220` | A usable row that scores enough is left out only when `top_k` better ones are returned |
| `VectorStore.BestHitsAreAskedFor` | `src/sci_etl_core/embeddings/store_sqlite_async.py:191-220` | Every hit has a finite score, reaches `min_score` and is not of the excluded record |
| `VectorStore.BestHitsAreInOrder` | `src/sci_etl_core/embeddings/store_sqlite_async.py:209-209` | The greater score comes first, and of equal scores the row that is first on file |
| `VectorStore.AsyncSqliteEmbeddingStore.Query` | `src/sci_etl_core/embeddings/store_sqlite_async.py:107-129` | A query returns what a full stable sort by descending score, cut to `top_k` and then filtered by `min_score`, would |
| `VectorStore.AsyncSqliteEmbeddingStore.OpenConnection` | `src/sci_etl_core/embeddings/store_sqlite_async.py:167-168` | A new connection drops the kept vectors, whatever version it sees |
| `VectorStore.AsyncSqliteEmbeddingStore.Write` | `src/sci_etl_core/embeddings/store_sqlite_async.py:184-189` | A write drops the kept vectors whether or not it commits |
| `TextRanking.Rank` | `src/sci_etl_core/search/store_sqlite_fts5.py:535-567` | Whatever order equal scores are read in, the result is the first `limit` of all matches with a document, by score and then record id |
| `TextRanking.CompletedIsWhole` | `src/sci_etl_core/search/store_sqlite_fts5.py:557-560` | The rows below the boundary among those read, with all rows tied at it, are the matches up to the boundary |
| `TextRanking.BestMatchesAre` | `src/sci_etl_core/search/store_sqlite_fts5.py:535-567` | The ranking holds matches with a document only, the lower score first and of equal scores the lower record id, and leaves one out only for a limit full of sooner ones |
| `TextRanking.BestMatchesIgnoreOrder` | `src/sci_etl_core/search/store_sqlite_fts5.py:535-567` | The ranking does not depend on the order the matches are read in |
| `Ranking.FirstOfAtMost` | `src/sci_etl_core/search/store_sqlite_fts5.py:564-565` | Sorting only the rows up to a key, when they are enough, gives the first rows of the sorted whole |
| `Chunking.MergeUndoesChunk` | `src/sci_etl_core/search/backfill_async.py:44-51` | For every list of words, window and allowed overlap, merging the windows with that overlap gives back the words once each, in order |
| `Chunking.PassagesComeBack` | `src/sci_etl_core/search/backfill_async.py:27-52` | The same for text: merging the chunker's passages gives the text's words joined by single spaces |
| `Chunking.SlidingWindowChunker.Make` | `src/sci_etl_core/embeddings/chunking.py:29-37` | A chunker is made exactly for a positive window and an overlap below it, by default the smaller of 50 and the window less one |
| `Chunking.PassagesFit` | `src/sci_etl_core/embeddings/chunking.py:49-60` | Where a space separates words, each passage of a text has at least one word and at most a window of them, however the text was spaced |
| `Chunking.SlidingWindowChunker.Chunk` | `src/sci_etl_core/embeddings/chunking.py:49-60` | The loop with its early break yields the windows, each overlapping the one before it; where a space separates words, no passage is without a word or has more of them than a window |
| `Chunking.Merge` | `src/sci_etl_core/search/backfill_async.py:27-52` | The loop merges the passages' words, and refuses a negative overlap |
| `Chunking.PassageIsAdded` | `src/sci_etl_core/search/backfill_async.py:33-36` | A passage loses its first words exactly when they repeat the last ones so far and it has more |
| `Chunking.NoPassageIsLost` | `src/sci_etl_core/search/backfill_async.py:33-36` | Any other passages lose no word |
| `Chunking.SplitUndoesJoin` | `src/sci_etl_core/search/backfill_async.py:45-52` | Words joined by single spaces are split again into the same words |

## Left out

- Tokenizing text, with its Unicode tables: a tokenizer is any function from text to tokens, none of them empty, and which
  characters are spaces is a parameter.
- `parse_query`'s check of the names in `default_fields`, and the interpreter's own limit on the digits of an integer,
  which a NEAR distance of thousands of digits would meet with a ValueError.
- QueryText.TextReadsBack: for trees whose words the tokenizer finds again in their own text; a phrase of one word is
  written and read as a term, and under default fields no scope cannot be written.
- Surrogates in query text: Dafny's characters do not include them, so `_UNSENDABLE` is modelled for NUL only.
- Evaluate.MatchesDocument: documents whose fields hold 2^32 tokens or more are outside the model, because packed starts
  there have no column of their own.
- FTS5 itself, bm25 scores, SQL execution and `ORDER BY`: a leaf's matches are any predicate, a score any real, and rows
  come in any order consistent with the score. Implicit AND, `+`, `^` and NEAR without a distance are not in the grammar
  of `MatchText`, because the compiler never writes them.
- The SQL text of a filter: its conditions are a tree, and only the MATCH expressions it binds are characters.
- StoreMemory.CountedHits: which occurrences count and the verdict are modelled, not the weights and the score.
- Floating point: weights and scores are exact reals, so rounding, NaN and infinite weights are not modelled.
- ListingRuns.NextRunIsRight: entries are only put on top of a listing, and only between runs, ids are distinct and every
  entry has one; deleted or reordered entries, and runs that page the same listing by cursor in between, are not covered.
- ListingSafety.RunStops: what is bounded is the pages of a run that goes on; a source that rejects a cursor restarts
  the run, once.
- Pipeline.RunPages: the loop pages by cursor, and newest-first runs of it are modelled on values in `NewestFirstPages`,
  where a stalled run may be cut at any time; `sleep_between`, log lines, events, metrics, token usage and the opening and
  closing of the exporter are not modelled, and `record_failure` is the list of failures committed.
- PageTasks.SettleRecord: full text, memory ingestion and entity extraction are one step with the write, since a fault in
  any of them does the same.
- Cancellation while a record waits for a permit: the whole run is cut there.
- Reading CSV: a table is its cells, without their quoting; `_row` and `_cell`, which build a row from an entity, are not
  modelled. Of JSON, `JournalText` reads what journal lines hold: strings, lists and an object with the two members.
- CsvExporter.AsyncCsvExporter.Flush: a flush follows an open, which leaves no torn line at the end of the journal for the
  append to join.
- CsvRuns.CrashKeepsAPrefix: an append that raises without a crash leaves no part of a line, and no write comes between
  the append of a flush and its end.
- DiscoveryGraph.BuildDiscoveryGraph: titles, metadata and degrees of the nodes, failing sources, and the order in which
  sources run are not modelled; a source answers the same for a record whenever it is asked.
- VectorStore.AsyncSqliteEmbeddingStore.Query: normalizing vectors, float32, an empty or zero query vector and reading
  the passages of the hits are not modelled, and reading the version and the rows is one step.
- Query chips, highlighting, facets, filters by metadata, claims, deduplication, configuration,
  extractors, parsers and clients: they add smaller members, or are I/O.
