/** The overlapping text chunker. */
module Chunker {
  import opened Outcomes
  import opened Text

  predicate IsWord(word: string) {
    word != "" && forall c | c in word :: !IsSpace(c)
  }

  predicate AllWords(words: seq<string>) {
    forall i | 0 <= i < |words| :: IsWord(words[i])
  }

  function WordLength(text: string): (n: nat)
    ensures n <= |text|
    ensures forall i | 0 <= i < n :: !IsSpace(text[i])
    ensures n < |text| ==> IsSpace(text[n])
  {
    if text == "" || IsSpace(text[0]) then 0 else 1 + WordLength(text[1..])
  }

  // strings.Fields: the maximal runs of characters that are not white space.
  function Fields(text: string): (words: seq<string>)
    ensures AllWords(words)
    decreases |text|
  {
    if text == "" then []
    else if IsSpace(text[0]) then Fields(text[1..])
    else [text[..WordLength(text)]] + Fields(text[WordLength(text)..])
  }

  // strings.Join(words, " ")
  function JoinWords(words: seq<string>): string {
    if words == [] then ""
    else if |words| == 1 then words[0]
    else words[0] + " " + JoinWords(words[1..])
  }

  lemma {:induction false} WordLengthIs(word: string, rest: string)
    requires forall c | c in word :: !IsSpace(c)
    requires rest == "" || IsSpace(rest[0])
    ensures WordLength(word + rest) == |word|
  {
    if word != "" {
      WordLengthIs(word[1..], rest);
      assert (word + rest)[1..] == word[1..] + rest;
    } else {
      assert word + rest == rest;
    }
  }

  lemma FieldsOfWord(word: string, rest: string)
    requires IsWord(word) && (rest == "" || IsSpace(rest[0]))
    ensures Fields(word + rest) == [word] + Fields(rest)
  {
    var text := word + rest;
    assert word[0] in word && text[0] == word[0];
    WordLengthIs(word, rest);
    assert text[..|word|] == word && text[|word|..] == rest;
  }

  lemma FieldsOfTwo(word: string, text: string)
    requires IsWord(word)
    ensures Fields(word + " " + text) == [word] + Fields(text)
  {
    SeparatorsSplit(word, ' ', text);
    assert word + " " + text == word + ([' '] + text);
  }

  // Tab, line feed, carriage return and blank separate alike, and none of them is part of a word.
  lemma SeparatorsSplit(word: string, separator: char, text: string)
    requires IsWord(word) && separator in {'\t', '\n', '\r', ' '}
    ensures Fields(word + ([separator] + text)) == [word] + Fields(text)
    ensures Fields([separator] + text) == Fields(text)
  {
    FieldsOfWord(word, [separator] + text);
    assert ([separator] + text)[1..] == text;
  }

  // Printable ASCII characters other than the blank do not separate.
  lemma VisibleCharactersJoin(text: string)
    requires text != "" && forall c | c in text :: '!' <= c <= '~'
    ensures Fields(text) == [text]
  {
    assert IsWord(text);
    FieldsOfWord(text, "");
    assert text + "" == text;
  }

  // Joining words and splitting again gives the words back.
  lemma {:induction false} FieldsOfJoin(words: seq<string>)
    requires AllWords(words)
    ensures Fields(JoinWords(words)) == words
  {
    if |words| == 1 {
      FieldsOfWord(words[0], "");
      assert words[0] + "" == words[0];
    } else if words != [] {
      FieldsOfTwo(words[0], JoinWords(words[1..]));
      FieldsOfJoin(words[1..]);
    }
  }

  // The index nearest to x in a sequence of n elements.
  function Clamp(x: int, n: nat): nat {
    if x < 0 then 0 else if x > n then n else x
  }

  // The index of the first word of chunk k.
  function Start(k: nat, step: int): int {
    if k == 0 then 0 else Start(k - 1, step) + step
  }

  lemma {:induction false} StartIsMultiple(k: nat, step: int)
    ensures Start(k, step) == k * step
  {
    if k > 0 {
      StartIsMultiple(k - 1, step);
    }
  }

  function Window(words: seq<string>, start: int, size: int): seq<string> {
    if size < 0 then [] else words[Clamp(start, |words|)..Clamp(start + size, |words|)]
  }

  // The first `count` windows of the words.
  function Windows(words: seq<string>, count: nat, step: int, size: int): (parts: seq<seq<string>>)
    ensures |parts| == count
  {
    if count == 0 then [] else Windows(words, count - 1, step, size) + [Window(words, Start(count - 1, step), size)]
  }

  lemma {:induction false} WindowAt(words: seq<string>, count: nat, step: int, size: int, k: nat)
    requires k < count
    ensures Windows(words, count, step, size)[k] == Window(words, Start(k, step), size)
  {
    if k < count - 1 {
      WindowAt(words, count - 1, step, size, k);
    }
  }

  // All parts one after the other, each but the first without its first `overlap` words.
  function Reassemble(parts: seq<seq<string>>, overlap: int): seq<string> {
    if parts == [] then []
    else if |parts| == 1 then parts[0]
    else
      var last := parts[|parts| - 1];
      Reassemble(parts[..|parts| - 1], overlap) + last[Clamp(overlap, |last|)..]
  }

  lemma {:induction false} ReassembleSnoc(parts: seq<seq<string>>, part: seq<string>, overlap: int)
    ensures Reassemble(parts + [part], overlap)
         == if parts == [] then part else Reassemble(parts, overlap) + part[Clamp(overlap, |part|)..]
  {
    assert (parts + [part])[..|parts|] == parts;
  }

  // The settings with which the slice expression leaves its bounds.
  predicate Panics(wordCount: nat, size: int, overlap: int) {
    wordCount > 0 && (size < 0 || size < overlap < wordCount)
  }

  class Chunker {
    const maxTokens: int
    const overlap: int

    constructor (maxTokens: int, overlap: int)
      ensures this.maxTokens == maxTokens && this.overlap == overlap
    {
      this.maxTokens, this.overlap := maxTokens, overlap;
    }

    // Any settings are taken; None stands for the panic that some of them cause.
    method Chunk(text: string) returns (chunks: Option<seq<string>>)
      ensures chunks.None? <==>
        Fields(text) != [] && (maxTokens < 0 || maxTokens < overlap < |Fields(text)|)
      ensures chunks.Some? ==> AreChunks(Fields(text), chunks.value, maxTokens, overlap)
    {
      var words := Fields(text);
      if |words| == 0 {
        return Some([]);
      }
      chunks := Slide(words, maxTokens, overlap);
      if chunks.Some? {
        SlidMeans(words, chunks.value, maxTokens, overlap);
      }
    }

    // The loop over the words.
    static method Slide(words: seq<string>, chunkSize: int, overlapSize: int) returns (chunks: Option<seq<string>>)
      requires words != []
      ensures chunks.None? <==> Panics(|words|, chunkSize, overlapSize)
      ensures chunks.Some? ==>
        AreJoined(chunks.value, Windows(words, |chunks.value|, chunkSize - overlapSize, chunkSize))
      ensures chunks.Some? ==> StopsInTime(|chunks.value|, |words|, chunkSize, overlapSize)
    {
      var done: seq<string> := [];
      var i := 0;
      while i < |words|
        invariant SlideInv(words, done, i, chunkSize, overlapSize)
        decreases if i < 0 then 0 else |words| - i + 1
      {
        var end := i + chunkSize;
        if end > |words| {
          end := |words|;
        }
        if i < 0 || end < i {
          return None;
        }
        SlideStep(words, done, i, end, chunkSize, overlapSize);
        done := done + [JoinWords(words[i..end])];
        if chunkSize == overlapSize || i + overlapSize >= |words| {
          break;
        }
        i := i + (chunkSize - overlapSize);
      }
      return Some(done);
    }
  }

  // The chunks so far, and what comes of going on, of a start before the words, and of stopping.
  predicate SlideInv(words: seq<string>, done: seq<string>, i: int, size: int, overlap: int) {
    && i == Start(|done|, size - overlap)
    && AreJoined(done, Windows(words, |done|, size - overlap, size))
    && (i < 0 ==> Panics(|words|, size, overlap))
    && (0 <= i < |words| ==> GoesOn(|done|, |words|, size, overlap))
    && (i >= |words| ==> StopsInTime(|done|, |words|, size, overlap))
    && (done != [] ==> size >= 0 && (overlap < size || i < 0))
  }

  lemma SlideStep(words: seq<string>, done: seq<string>, i: nat, end: nat, size: int, overlap: int)
    requires SlideInv(words, done, i, size, overlap)
    requires i < |words| && i <= end == if i + size > |words| then |words| else i + size
    ensures var more := done + [JoinWords(words[i..end])];
            if size == overlap || i + overlap >= |words| then
              && AreJoined(more, Windows(words, |more|, size - overlap, size))
              && StopsInTime(|more|, |words|, size, overlap) && !Panics(|words|, size, overlap)
            else SlideInv(words, more, i + (size - overlap), size, overlap)
  {
    var more := done + [JoinWords(words[i..end])];
    assert |more| - 1 == |done| && size >= 0 && words[i..end] == Window(words, i, size);
    assert Windows(words, |more|, size - overlap, size)
        == Windows(words, |done|, size - overlap, size) + [Window(words, i, size)];
    assert Start(|more|, size - overlap) == i + (size - overlap);
  }

  /**
   Chunk k holds the window of words that starts at word k * (size - overlap). Dropping each later chunk's first
   `overlap` words and putting the rest together gives back exactly the words if and only if the overlap is sound or
   one chunk is enough.
   */
  predicate AreChunks(words: seq<string>, chunks: seq<string>, size: int, overlap: int) {
    && (chunks == [] <==> words == [])
    && (chunks != [] ==> StopsInTime(|chunks|, |words|, size, overlap))
    && FieldsOfEach(chunks) == Windows(words, |chunks|, size - overlap, size)
    && (Reassemble(FieldsOfEach(chunks), overlap) == words
        <==> words == [] || 0 <= overlap < size || |words| <= size)
  }

  lemma SlidMeans(words: seq<string>, chunks: seq<string>, size: int, overlap: int)
    requires AllWords(words) && words != [] && !Panics(|words|, size, overlap)
    requires AreJoined(chunks, Windows(words, |chunks|, size - overlap, size))
    requires StopsInTime(|chunks|, |words|, size, overlap)
    ensures AreChunks(words, chunks, size, overlap)
  {
    var parts := Windows(words, |chunks|, size - overlap, size);
    JoinedGiveWindows(words, chunks, size - overlap, size);
    assert FieldsOfEach(chunks) == parts && chunks != [];
    WindowsReassembleIff(words, |chunks|, size, overlap);
    assert Reassemble(FieldsOfEach(chunks), overlap) == Reassemble(parts, overlap);
  }

  predicate AreJoined(chunks: seq<string>, parts: seq<seq<string>>) {
    |chunks| == |parts| && forall k | 0 <= k < |chunks| :: chunks[k] == JoinWords(parts[k])
  }

  function FieldsOfEach(chunks: seq<string>): seq<seq<string>> {
    seq(|chunks|, k requires 0 <= k < |chunks| => Fields(chunks[k]))
  }

  // Splitting the chunks again gives back the windows.
  lemma JoinedGiveWindows(words: seq<string>, chunks: seq<string>, step: int, size: int)
    requires AllWords(words) && AreJoined(chunks, Windows(words, |chunks|, step, size))
    ensures FieldsOfEach(chunks) == Windows(words, |chunks|, step, size)
  {
    forall k | 0 <= k < |chunks|
      ensures Fields(chunks[k]) == Windows(words, |chunks|, step, size)[k]
    {
      WindowAt(words, |chunks|, step, size, k);
      FieldsOfJoin(Window(words, Start(k, step), size));
    }
  }

  // After this many chunks the loop goes on: the next window exists and its new words are not all behind the end.
  predicate GoesOn(count: nat, wordCount: nat, size: int, overlap: int) {
    count == 0
    || (overlap < size && Start(count - 1, size - overlap) + overlap < wordCount
        && Start(count, size - overlap) < wordCount)
  }

  // The loop goes on before the last chunk and stops after it.
  predicate StopsInTime(count: nat, wordCount: nat, size: int, overlap: int) {
    0 < count && GoesOn(count - 1, wordCount, size, overlap) && !GoesOn(count, wordCount, size, overlap)
  }

  // Chunk k and the overlap after its start do not reach the end, and there is a next start.
  predicate LeavesWords(k: nat, wordCount: nat, size: int, overlap: int) {
    k * (size - overlap) + overlap < wordCount && (k + 1) * (size - overlap) < wordCount
  }

  /**
   With a sound overlap the last chunk is the first one to reach the end with its overlap, or with the next start:
   all earlier ones leave new words.
   */
  lemma StopsInTimeMeans(count: nat, wordCount: nat, size: int, overlap: int)
    requires StopsInTime(count, wordCount, size, overlap) && overlap < size
    ensures forall k: nat | k < count - 1 :: LeavesWords(k, wordCount, size, overlap)
    ensures (count - 1) * (size - overlap) + overlap >= wordCount || count * (size - overlap) >= wordCount
  {
    forall k: nat | k < count - 1
      ensures LeavesWords(k, wordCount, size, overlap)
    {
      GoesOnEarlier(k + 1, count - 1, wordCount, size, overlap);
      StartIsMultiple(k, size - overlap);
      StartIsMultiple(k + 1, size - overlap);
    }
    StartIsMultiple(count - 1, size - overlap);
    StartIsMultiple(count, size - overlap);
  }

  lemma {:induction false} GoesOnEarlier(count: nat, later: nat, wordCount: nat, size: int, overlap: int)
    requires count <= later && GoesOn(later, wordCount, size, overlap)
    ensures GoesOn(count, wordCount, size, overlap)
    decreases later
  {
    if 0 < count < later {
      assert GoesOn(later - 1, wordCount, size, overlap);
      GoesOnEarlier(count, later - 1, wordCount, size, overlap);
    }
  }

  // There is only one number of chunks at which the loop can stop.
  lemma ChunkCountIsExact(a: nat, b: nat, wordCount: nat, size: int, overlap: int)
    requires StopsInTime(a, wordCount, size, overlap) && StopsInTime(b, wordCount, size, overlap)
    ensures a == b
  {
    if a < b {
      GoesOnEarlier(a, b - 1, wordCount, size, overlap);
    } else if b < a {
      GoesOnEarlier(b, a - 1, wordCount, size, overlap);
    }
  }

  lemma {:induction false} StartNotNegative(k: nat, step: int)
    requires step >= 0
    ensures Start(k, step) >= 0
  {
    if k > 0 {
      StartNotNegative(k - 1, step);
    }
  }

  // The start of every window that the loop reaches is the index of a word.
  lemma StartIsInside(k: nat, count: nat, wordCount: nat, size: int, overlap: int)
    requires k < count && 0 < wordCount && StopsInTime(count, wordCount, size, overlap)
    ensures 0 <= Start(k, size - overlap) < wordCount
  {
    GoesOnEarlier(k, count - 1, wordCount, size, overlap);
    if k > 0 {
      StartNotNegative(k, size - overlap);
    }
  }

  // A window that starts at the index of a word has `size` words, fewer only at the end, and none only for size 0.
  lemma WindowIs(words: seq<string>, start: nat, size: nat)
    requires start < |words|
    ensures var n := |Window(words, start, size)|;
            && n <= size && start + n <= |words| && (n < size ==> start + n == |words|)
            && (n == 0 <==> size == 0) && Window(words, start, size) == words[start..start + n]
  {
  }

  // Chunk k starts at word k * step and has between one and `size` words, fewer than `size` only at the end.
  lemma WindowsMean(words: seq<string>, count: nat, size: int, overlap: int, k: nat)
    requires words != [] && k < count && 0 <= size
    requires StopsInTime(count, |words|, size, overlap)
    ensures var part, first := Windows(words, count, size - overlap, size)[k], k * (size - overlap);
            && |part| <= size && (|part| < size ==> first + |part| == |words|) && (part == [] <==> size == 0)
            && 0 <= first && first + |part| <= |words| && part == words[first..first + |part|]
  {
    StartIsMultiple(k, size - overlap);
    StartIsInside(k, count, |words|, size, overlap);
    WindowAt(words, count, size - overlap, size, k);
    WindowIs(words, Start(k, size - overlap), size);
  }

  // The start of a window that the loop reaches after another one.
  lemma NextStart(count: nat, wordCount: nat, size: int, overlap: int) returns (i: nat)
    requires count > 1 && GoesOn(count - 1, wordCount, size, overlap)
    ensures i == Start(count - 1, size - overlap) < wordCount
    ensures Start(count - 2, size - overlap) + size == i + overlap
    ensures GoesOn(count - 2, wordCount, size, overlap) && overlap < size
  {
    GoesOnEarlier(count - 2, count - 1, wordCount, size, overlap);
    StartNotNegative(count - 1, size - overlap);
    i := Start(count - 1, size - overlap);
  }

  // With an overlap, the windows put together reach as far as the last of them.
  lemma {:induction false} ReassembleWindows(words: seq<string>, count: nat, size: nat, overlap: nat)
    returns (end: nat)
    requires words != [] && 0 < count && GoesOn(count - 1, |words|, size, overlap)
    ensures end == Start(count - 1, size - overlap) + size
    ensures Reassemble(Windows(words, count, size - overlap, size), overlap) == words[..Clamp(end, |words|)]
  {
    if count > 1 {
      var i := NextStart(count, |words|, size, overlap);
      var before := ReassembleWindows(words, count - 1, size, overlap);
      end := i + size;
      ReassembleNext(words, count, i, before, size, overlap);
    } else {
      OneWindowIs(words, size, overlap);
      end := size;
    }
  }

  lemma OneWindowIs(words: seq<string>, size: nat, overlap: int)
    ensures Windows(words, 1, size - overlap, size) == [words[..Clamp(size, |words|)]]
    ensures Start(0, size - overlap) == 0
  {
  }

  // One more window extends the words put together so far to its own end.
  lemma ReassembleNext(words: seq<string>, count: nat, i: nat, before: nat, size: nat, overlap: nat)
    requires 1 < count && overlap <= size && i == Start(count - 1, size - overlap) < |words| && before == i + overlap
    requires Reassemble(Windows(words, count - 1, size - overlap, size), overlap) == words[..Clamp(before, |words|)]
    ensures Reassemble(Windows(words, count, size - overlap, size), overlap) == words[..Clamp(i + size, |words|)]
  {
    var part := Window(words, i, size);
    ReassembleSnoc(Windows(words, count - 1, size - overlap, size), part, overlap);
    JoinsAt(words, i, size, overlap);
  }

  lemma JoinsAt(words: seq<string>, i: nat, size: nat, overlap: nat)
    requires overlap <= size && i < |words|
    ensures var part := Window(words, i, size);
            words[..Clamp(i + overlap, |words|)] + part[Clamp(overlap, |part|)..] == words[..Clamp(i + size, |words|)]
  {
  }

  // With a negative overlap, the words between one window and the next are lost.
  lemma {:induction false} GapsLoseWords(words: seq<string>, count: nat, size: int, overlap: int)
    requires 0 <= size && overlap < 0 && words != [] && 0 < count && GoesOn(count - 1, |words|, size, overlap)
    ensures var n := |Reassemble(Windows(words, count, size - overlap, size), overlap)|;
            n <= Start(count - 1, size - overlap) + size && (size < |words| ==> n < |words|)
  {
    if count > 1 {
      var i := NextStart(count, |words|, size, overlap);
      GapsLoseWords(words, count - 1, size, overlap);
      WindowIs(words, i, size);
      ReassembleSnoc(Windows(words, count - 1, size - overlap, size), Window(words, i, size), overlap);
    } else {
      OneWindowIs(words, size, overlap);
    }
  }

  // The exact condition for the chunks to lose no word.
  lemma WindowsReassembleIff(words: seq<string>, count: nat, size: int, overlap: int)
    requires words != [] && !Panics(|words|, size, overlap) && StopsInTime(count, |words|, size, overlap)
    ensures Reassemble(Windows(words, count, size - overlap, size), overlap) == words
       <==> 0 <= overlap < size || |words| <= size
  {
    if overlap < 0 {
      GapsLoseWords(words, count, size, overlap);
      if |words| <= size {
        OneWindow(words, count, size, overlap);
      }
    } else if overlap < size {
      var end := ReassembleWindows(words, count, size, overlap);
      assert Start(count, size - overlap) == Start(count - 1, size - overlap) + (size - overlap);
      assert Clamp(end, |words|) == |words|;
      assert words[..|words|] == words;
    } else {
      OneWindow(words, count, size, overlap);
    }
  }

  // One window is all there is when the first one reaches the end or is all overlap.
  lemma OneWindow(words: seq<string>, count: nat, size: int, overlap: int)
    requires 0 <= size && words != [] && StopsInTime(count, |words|, size, overlap)
    requires size <= overlap || (overlap < 0 && |words| <= size)
    ensures count == 1
    ensures Reassemble(Windows(words, count, size - overlap, size), overlap) == words <==> |words| <= size
  {
    assert Start(1, size - overlap) == size - overlap;
    if count > 1 {
      GoesOnEarlier(1, count - 1, |words|, size, overlap);
    }
    var first := Window(words, 0, size);
    assert Start(0, size - overlap) == 0;
    assert Windows(words, 1, size - overlap, size) == [first];
    WindowIs(words, 0, size);
    assert |words| <= size ==> first == words;
  }

  // ----- The configuration -----

  // The loader replaces zeros by 500 and 50 and accepts everything else.
  function WithDefault(value: int, default: int): int {
    if value == 0 then default else value
  }

  // A chunk size below 50 alone is therefore enough for a longer text to panic.
  lemma UnsetOverlapPanicsIff(maxTokens: int, wordCount: nat)
    ensures Panics(wordCount, WithDefault(maxTokens, 500), WithDefault(0, 50))
       <==> (maxTokens < 0 < wordCount) || 0 < maxTokens < 50 < wordCount
    ensures Panics(51, WithDefault(40, 500), WithDefault(0, 50))
  {
  }
}
