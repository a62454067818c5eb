/** Sliding windows of words, and the text merged back from them (embeddings/chunking.py, search/backfill_async.py). */
module Chunking {

  datatype Option<T> = None | Some(value: T)

  type Word = string

  // ----- Words of a text

  /** The length of the word a text starts with. */
  function WordLength(text: string, space: char -> bool): (n: nat)
    ensures n <= |text|
    ensures forall i :: 0 <= i < n ==> !space(text[i])
    ensures n < |text| ==> space(text[n])
  {
    if text == [] || space(text[0]) then 0 else 1 + WordLength(text[1..], space)
  }

  function Split(text: string, space: char -> bool): seq<Word>
    decreases |text|
  {
    if text == [] then []
    else if space(text[0]) then Split(text[1..], space)
    else [text[..WordLength(text, space)]] + Split(text[WordLength(text, space)..], space)
  }

  function Join(words: seq<Word>): string {
    if words == [] then [] else if |words| == 1 then words[0] else words[0] + " " + Join(words[1..])
  }

  ghost predicate Proper(words: seq<Word>, space: char -> bool) {
    forall i :: 0 <= i < |words| ==> words[i] != [] && forall j :: 0 <= j < |words[i]| ==> !space(words[i][j])
  }

  lemma {:induction false} SplitIsProper(text: string, space: char -> bool)
    ensures Proper(Split(text, space), space)
    decreases |text|
  {
    if text != [] {
      if space(text[0]) {
        SplitIsProper(text[1..], space);
      } else {
        SplitIsProper(text[WordLength(text, space)..], space);
      }
    }
  }

  lemma {:induction false} WordEnds(word: Word, rest: string, space: char -> bool)
    requires forall j :: 0 <= j < |word| ==> !space(word[j])
    requires rest == [] || space(rest[0])
    ensures WordLength(word + rest, space) == |word|
  {
    if word == [] {
      assert word + rest == rest;
    } else {
      assert (word + rest)[1..] == word[1..] + rest;
      WordEnds(word[1..], rest, space);
    }
  }

  lemma SplitOneWord(word: Word, rest: string, space: char -> bool)
    requires word != [] && forall j :: 0 <= j < |word| ==> !space(word[j])
    requires rest == [] || space(rest[0])
    ensures Split(word + rest, space) == [word] + Split(rest, space)
  {
    WordEnds(word, rest, space);
    assert (word + rest)[..|word|] == word && (word + rest)[|word|..] == rest;
    assert (word + rest)[0] == word[0];
  }

  /** Words joined by single spaces are split again into the same words. */
  lemma {:induction false} SplitUndoesJoin(words: seq<Word>, space: char -> bool)
    requires Proper(words, space) && space(' ')
    ensures Split(Join(words), space) == words
  {
    if |words| == 1 {
      assert words[0] + "" == words[0];
      SplitOneWord(words[0], "", space);
    } else if |words| > 1 {
      SplitUndoesJoin(words[1..], space);
      var rest := " " + Join(words[1..]);
      assert Join(words) == words[0] + rest;
      SplitOneWord(words[0], rest, space);
      assert rest[1..] == Join(words[1..]);
    }
  }

  // ----- Windows of words

  datatype Window = Window(size: nat, overlap: nat)

  predicate Allowed(window: Window) {
    window.overlap < window.size
  }

  /** The windows of the words; the last is the first to reach their end. */
  function Windows(words: seq<Word>, window: Window): seq<seq<Word>>
    requires Allowed(window)
    decreases |words|
  {
    if |words| <= window.size then [words]
    else [words[..window.size]] + Windows(words[window.size - window.overlap..], window)
  }

  function Chunks(words: seq<Word>, window: Window): seq<seq<Word>>
    requires Allowed(window)
  {
    if words == [] then [] else Windows(words, window)
  }

  /** Whether a passage begins with the last words so far. */
  predicate Repeats(words: seq<Word>, passage: seq<Word>, overlap: nat) {
    0 < overlap < |passage| && |words| >= overlap && passage[..overlap] == words[|words| - overlap..]
  }

  /** The words so far with a passage's added, less those it repeats. */
  function Extended(words: seq<Word>, passage: seq<Word>, overlap: nat): seq<Word> {
    if Repeats(words, passage, overlap) then words + passage[overlap..] else words + passage
  }

  function Merged(words: seq<Word>, passages: seq<seq<Word>>, overlap: nat): seq<Word>
    decreases |passages|
  {
    if passages == [] then words else Merged(Extended(words, passages[0], overlap), passages[1..], overlap)
  }

  /** Exactly a passage with more words than the overlap that begins with the last words so far is added without them;
      any other is added whole. Either way the words so far stay, and the passage ends what they become. */
  lemma PassageIsAdded(words: seq<Word>, passage: seq<Word>, overlap: nat)
    ensures
      var more := Extended(words, passage, overlap);
      && words <= more && |passage| <= |more| && more[|more| - |passage|..] == passage
      && (|more| == |words| + |passage| - overlap && overlap > 0
          <==> 0 < overlap < |passage| && overlap <= |words|
               && forall i :: 0 <= i < overlap ==> passage[i] == words[|words| - overlap + i])
      && (|more| == |words| + |passage| - overlap || more == words + passage)
  {
    var more := Extended(words, passage, overlap);
    if Repeats(words, passage, overlap) {
      assert forall i :: 0 <= i < overlap ==> passage[i] == passage[..overlap][i] == words[|words| - overlap..][i];
      assert more[|more| - |passage|..] == words[|words| - overlap..] + passage[overlap..] == passage;
    } else if 0 < overlap < |passage| && overlap <= |words| {
      var i :| 0 <= i < overlap && passage[..overlap][i] != words[|words| - overlap..][i];
      assert passage[i] != words[|words| - overlap + i];
    }
  }

  /** The passage stands in the words in one piece. */
  ghost predicate StandsIn(passage: seq<Word>, words: seq<Word>) {
    exists i: nat :: StandsAt(passage, words, i)
  }

  ghost predicate StandsAt(passage: seq<Word>, words: seq<Word>, i: nat) {
    i + |passage| <= |words| && words[i..i + |passage|] == passage
  }

  lemma {:induction false} MergedExtends(words: seq<Word>, passages: seq<seq<Word>>, overlap: nat)
    ensures words <= Merged(words, passages, overlap)
    decreases |passages|
  {
    if passages != [] {
      PassageIsAdded(words, passages[0], overlap);
      MergedExtends(Extended(words, passages[0], overlap), passages[1..], overlap);
    }
  }

  /** Whatever chunker the passages come from, every one of them stands in the merged words in one piece. */
  lemma {:induction false} NoPassageIsLost(words: seq<Word>, passages: seq<seq<Word>>, overlap: nat, k: nat)
    requires k < |passages|
    ensures StandsIn(passages[k], Merged(words, passages, overlap))
    decreases |passages|
  {
    var more := Extended(words, passages[0], overlap);
    if k == 0 {
      PassageIsAdded(words, passages[0], overlap);
      MergedExtends(more, passages[1..], overlap);
      var merged := Merged(more, passages[1..], overlap);
      var i := |more| - |passages[0]|;
      assert merged[i..i + |passages[0]|] == more[i..];
      assert StandsAt(passages[0], merged, i);
    } else {
      NoPassageIsLost(more, passages[1..], overlap, k - 1);
    }
  }

  lemma MergedOneOn(words: seq<Word>, passage: seq<Word>, rest: seq<seq<Word>>, overlap: nat)
    ensures Merged(words, [passage] + rest, overlap) == Merged(Extended(words, passage, overlap), rest, overlap)
  {
    assert ([passage] + rest)[1..] == rest;
  }

  /** A passage that begins with the overlap the words so far end with is added without it. */
  lemma ExtendedBy(base: seq<Word>, passage: seq<Word>, overlap: nat)
    requires |passage| > overlap
    ensures Extended(base + passage[..overlap], passage, overlap) == base + passage
  {
    var words := base + passage[..overlap];
    if overlap > 0 {
      assert words[|words| - overlap..] == passage[..overlap];
      assert words + passage[overlap..] == base + passage;
    } else {
      assert words == base;
    }
  }

  /** The words up to the end of a window are those before the next one, and the overlap it begins with. */
  lemma NextOverlaps(base: seq<Word>, words: seq<Word>, window: Window)
    requires Allowed(window) && |words| > window.size
    ensures
      var step := window.size - window.overlap;
      && base + words[..window.size] == base + words[..step] + words[step..][..window.overlap]
      && base + words[..step] + words[step..] == base + words
  {
    var step := window.size - window.overlap;
    assert words[..window.size] == words[..step] + words[step..][..window.overlap];
    assert words == words[..step] + words[step..];
  }

  lemma {:induction false} FirstWindowMerges(base: seq<Word>, words: seq<Word>, window: Window, before: seq<Word>, next: seq<Word>)
    requires Allowed(window) && |words| > window.size
    requires before == base + words[..window.size - window.overlap] && next == words[window.size - window.overlap..]
    ensures
      Merged(base + words[..window.overlap], Windows(words, window), window.overlap)
      == Merged(before + next[..window.overlap], Windows(next, window), window.overlap)
    ensures before + next == base + words
  {
    var passage := words[..window.size];
    NextOverlaps(base, words, window);
    assert passage[..window.overlap] == words[..window.overlap];
    ExtendedBy(base, passage, window.overlap);
    MergedOneOn(base + words[..window.overlap], passage, Windows(next, window), window.overlap);
  }

  /** Merging the windows of words whose overlap is there already adds the rest of them. */
  lemma {:induction false} WindowsMerge(base: seq<Word>, words: seq<Word>, window: Window)
    requires Allowed(window) && |words| > window.overlap
    ensures Merged(base + words[..window.overlap], Windows(words, window), window.overlap) == base + words
    decreases |words|
  {
    if |words| <= window.size {
      ExtendedBy(base, words, window.overlap);
    } else {
      var (before, next) := (base + words[..window.size - window.overlap], words[window.size - window.overlap..]);
      FirstWindowMerges(base, words, window, before, next);
      WindowsMerge(before, next, window);
    }
  }

  /** For every window and overlap, merging the windows gives back the words, each once and in order. */
  lemma MergeUndoesChunk(words: seq<Word>, window: Window)
    requires Allowed(window)
    ensures Merged([], Chunks(words, window), window.overlap) == words
  {
    if |words| > window.size {
      var step := window.size - window.overlap;
      NextOverlaps([], words, window);
      assert [] + words[..step] == words[..step] && [] + words == words;
      MergedOneOn([], words[..window.size], Windows(words[step..], window), window.overlap);
      WindowsMerge(words[..step], words[step..], window);
    }
  }

  /** No window is empty or longer than its size. */
  lemma {:induction false} WindowsFit(words: seq<Word>, window: Window)
    requires Allowed(window) && words != []
    ensures forall i :: 0 <= i < |Windows(words, window)| ==> 0 < |Windows(words, window)[i]| <= window.size
    decreases |words|
  {
    if |words| > window.size {
      WindowsFit(words[window.size - window.overlap..], window);
    }
  }

  // ----- Passages of text

  function Joined(windows: seq<seq<Word>>): seq<string> {
    if windows == [] then [] else [Join(windows[0])] + Joined(windows[1..])
  }

  /** The passages of words are the first window's and those of the words after it. */
  lemma {:induction false} JoinedFrom(words: seq<Word>, window: Window)
    requires Allowed(window) && |words| > window.size
    ensures
      Joined(Windows(words, window))
      == [Join(words[..window.size])] + Joined(Windows(words[window.size - window.overlap..], window))
  {
    var rest := Windows(words[window.size - window.overlap..], window);
    assert Windows(words, window)[1..] == rest;
  }

  function SplitAll(passages: seq<string>, space: char -> bool): seq<seq<Word>> {
    if passages == [] then [] else [Split(passages[0], space)] + SplitAll(passages[1..], space)
  }

  function MergePassages(passages: seq<string>, overlap: nat, space: char -> bool): string {
    Join(Merged([], SplitAll(passages, space), overlap))
  }

  ghost predicate AllProper(windows: seq<seq<Word>>, space: char -> bool) {
    forall i :: 0 <= i < |windows| ==> Proper(windows[i], space)
  }

  lemma {:induction false} SplitAllUndoesJoined(windows: seq<seq<Word>>, space: char -> bool)
    requires AllProper(windows, space) && space(' ')
    ensures SplitAll(Joined(windows), space) == windows
  {
    if windows != [] {
      SplitUndoesJoin(windows[0], space);
      SplitAllUndoesJoined(windows[1..], space);
    }
  }

  lemma {:induction false} WindowsAreProper(words: seq<Word>, window: Window, space: char -> bool)
    requires Allowed(window) && Proper(words, space)
    ensures AllProper(Windows(words, window), space)
    decreases |words|
  {
    if |words| > window.size {
      assert Proper(words[..window.size], space);
      WindowsAreProper(words[window.size - window.overlap..], window, space);
    }
  }

  /** Each passage splits into as many words as its window has: at least one and at most the size. */
  lemma {:induction false} JoinedFit(windows: seq<seq<Word>>, size: nat, space: char -> bool)
    requires AllProper(windows, space) && space(' ')
    requires forall i :: 0 <= i < |windows| ==> 0 < |windows[i]| <= size
    ensures forall i :: 0 <= i < |Joined(windows)| ==> 0 < |Split(Joined(windows)[i], space)| <= size
  {
    if windows != [] {
      SplitUndoesJoin(windows[0], space);
      JoinedFit(windows[1..], size, space);
    }
  }

  /** No passage of a text is without a word or has more of them than a window. */
  lemma PassagesFit(text: string, window: Window, space: char -> bool)
    requires Allowed(window) && space(' ')
    ensures
      var passages := Joined(Chunks(Split(text, space), window));
      forall i :: 0 <= i < |passages| ==> 0 < |Split(passages[i], space)| <= window.size
  {
    var words := Split(text, space);
    if words != [] {
      SplitIsProper(text, space);
      WindowsAreProper(words, window, space);
      WindowsFit(words, window);
      JoinedFit(Windows(words, window), window.size, space);
    }
  }

  /** The passages of a text, merged with the chunker's own overlap, are its words once each, in order. */
  lemma PassagesComeBack(text: string, window: Window, space: char -> bool)
    requires Allowed(window) && space(' ')
    ensures
      var merged := MergePassages(Joined(Chunks(Split(text, space), window)), window.overlap, space);
      merged == Join(Split(text, space)) && Split(merged, space) == Split(text, space)
  {
    var words := Split(text, space);
    SplitIsProper(text, space);
    WindowsAreProper(words, window, space);
    SplitAllUndoesJoined(Chunks(words, window), space);
    MergeUndoesChunk(words, window);
    SplitUndoesJoin(words, space);
  }

  // ----- The chunker and the merge as the source runs them

  const DEFAULT_OVERLAP: int := 50

  class SlidingWindowChunker {
    const window: Window

    constructor (chosen: Window)
      requires Allowed(chosen)
      ensures window == chosen
    {
      window := chosen;
    }

    /** A chunker, or `None` where the constructor raises. */
    static method Make(chunkWords: int, overlapWords: Option<int>) returns (chunker: Option<SlidingWindowChunker>)
      ensures
        chunker.Some?
        <==> chunkWords >= 1 && (overlapWords.None? || 0 <= overlapWords.value < chunkWords)
      ensures
        chunker.Some? ==>
          && Allowed(chunker.value.window) && chunker.value.window.size == chunkWords
          && chunker.value.window.overlap
             == if overlapWords.Some? then overlapWords.value
                else if chunkWords - 1 < DEFAULT_OVERLAP then chunkWords - 1
                else DEFAULT_OVERLAP
    {
      if chunkWords < 1 {
        return None;
      }
      var overlap := overlapWords;
      if overlap == None {
        overlap := Some(if DEFAULT_OVERLAP <= chunkWords - 1 then DEFAULT_OVERLAP else chunkWords - 1);
      }
      if !(0 <= overlap.value < chunkWords) {
        return None;
      }
      var made := new SlidingWindowChunker(Window(chunkWords, overlap.value));
      return Some(made);
    }

    method Chunk(text: string, space: char -> bool) returns (chunks: seq<string>)
      requires Allowed(window)
      ensures chunks == Joined(Chunks(Split(text, space), window))
      ensures space(' ') ==> forall i :: 0 <= i < |chunks| ==> 0 < |Split(chunks[i], space)| <= window.size
    {
      var words := Split(text, space);
      if words == [] {
        return [];
      }
      chunks := ChunkWords(words);
      if space(' ') {
        PassagesFit(text, window, space);
      }
    }

    method ChunkWords(words: seq<Word>) returns (chunks: seq<string>)
      requires Allowed(window) && words != []
      ensures chunks == Joined(Windows(words, window))
    {
      var step := window.size - window.overlap;
      var start := 0;
      chunks := [];
      ghost var whole := Joined(Windows(words, window));
      assert words[0..] == words;
      while start < |words|
        invariant 0 <= start < |words|
        invariant chunks + Joined(Windows(words[start..], window)) == whole
        decreases |words| - start
      {
        var end := if start + window.size <= |words| then start + window.size else |words|;
        ghost var rest := words[start..];
        if start + window.size >= |words| {
          assert words[start..end] == rest && Windows(rest, window) == [rest] && Joined([rest]) == [Join(rest)] + [];
          return chunks + [Join(words[start..end])];
        }
        assert rest[..window.size] == words[start..end] && rest[step..] == words[start + step..];
        chunks := ChunkOne(chunks, words[start..end], rest, whole);
        start := start + step;
      }
    }

    method ChunkOne(chunks: seq<string>, passage: seq<Word>, ghost words: seq<Word>, ghost whole: seq<string>)
      returns (more: seq<string>)
      requires Allowed(window) && |words| > window.size && passage == words[..window.size]
      requires chunks + Joined(Windows(words, window)) == whole
      ensures more + Joined(Windows(words[window.size - window.overlap..], window)) == whole
    {
      JoinedFrom(words, window);
      more := chunks + [Join(passage)];
      ghost var rest := Joined(Windows(words[window.size - window.overlap..], window));
      assert chunks + ([Join(passage)] + rest) == more + rest;
    }
  }

  /** Joins overlapping passages; `None` for a negative overlap. */
  method Merge(passages: seq<string>, overlapWords: int, space: char -> bool) returns (text: Option<string>)
    ensures text == if overlapWords < 0 then None else Some(MergePassages(passages, overlapWords, space))
  {
    if overlapWords < 0 {
      return None;
    }
    var words: seq<Word> := [];
    for i := 0 to |passages|
      invariant Merged(words, SplitAll(passages[i..], space), overlapWords) == Merged([], SplitAll(passages, space), overlapWords)
    {
      assert passages[i..][1..] == passages[i + 1..];
      var passageWords := Split(passages[i], space);
      assert SplitAll(passages[i..], space) == [passageWords] + SplitAll(passages[i + 1..], space);
      var repeated := 0 < overlapWords < |passageWords| && |words| >= overlapWords
                      && passageWords[..overlapWords] == words[|words| - overlapWords..];
      words := words + if repeated then passageWords[overlapWords..] else passageWords;
    }
    return Some(Join(words));
  }
}
