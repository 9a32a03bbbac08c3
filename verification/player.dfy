/**
 * The audiobook player: where the current sentence begins and ends, the
 * chunk handed to speech synthesis, the position arithmetic of the skip and
 * jump buttons, the text shown around the sentence, and the voice label.
 * Speech itself is outside the model: `StartChunk` is what runs before the
 * synthesiser is called and `ChunkSpoken` what runs after it returns.
 */
module Player {
  import opened Wrappers
  import opened Text
  import opened Records
  import opened BookStore

  const CharsPerSecond: int := 15
  const MaxChunkSize: int := 4000
  const TextContextChars: int := 800
  const SkipChars: int := 500

  predicate IsTerminator(c: char) {
    c == '.' || c == '?' || c == '!'
  }

  /** One past the last terminator before the position (or 0), looking back
      from position - 1 the way `lastIndexOf` does. */
  function SentenceStart(text: string, position: int): (start: int)
    ensures 0 <= start <= |text|
    ensures 1 <= position ==> start <= position
    ensures 1 <= position ==> forall j :: start <= j < position && j < |text| ==> !IsTerminator(text[j])
    ensures start > 0 ==> IsTerminator(text[start - 1])
  {
    var dot := LastIndexOf(text, '.', position - 1);
    var question := LastIndexOf(text, '?', position - 1);
    var exclamation := LastIndexOf(text, '!', position - 1);
    var s0 := if dot == -1 then 0 else dot + 1;
    Max3(s0, question + 1, exclamation + 1)
  }

  function Max3(a: int, b: int, c: int): (m: int)
    ensures m >= a && m >= b && m >= c
    ensures m == a || m == b || m == c
  {
    if a >= b && a >= c then a else if b >= c then b else c
  }

  /** One past the first terminator at or after the position, or |text| + 1 when there is none. */
  function SentenceEnd(text: string, position: int): (end: int)
    ensures 1 <= end <= |text| + 1
    ensures end <= |text| ==> Clamp(position, 0, |text|) <= end - 1 && IsTerminator(text[end - 1])
    ensures forall j :: Clamp(position, 0, |text|) <= j < |text| && j < end - 1 ==> !IsTerminator(text[j])
  {
    var dot := IndexOf(text, '.', position);
    var question := IndexOf(text, '?', position);
    var exclamation := IndexOf(text, '!', position);
    var e0 := if dot == -1 then |text| else dot;
    var e1 := if question != -1 && question < e0 then question else e0;
    var e2 := if exclamation != -1 && exclamation < e1 then exclamation else e1;
    e2 + 1
  }

  /** Where a spoken chunk ends: at most 4000 characters on, and not past the text. */
  function ChunkEnd(text: string, start: int): (end: int)
    ensures end <= |text| && end <= start + MaxChunkSize
    ensures end == |text| || end == start + MaxChunkSize
  {
    if start + MaxChunkSize < |text| then start + MaxChunkSize else |text|
  }

  /** The text of a chunk; never longer than 4000 characters. */
  function Chunk(text: string, start: int): (chunk: string)
    ensures 0 <= start ==> |chunk| <= MaxChunkSize
    ensures 0 <= start <= |text| ==> chunk == text[start..ChunkEnd(text, start)]
  {
    Slice(text, start, ChunkEnd(text, start))
  }

  /** Consecutive chunks tile the text: the chunk from `ChunkEnd` follows on
      exactly, so speaking chunk after chunk covers the rest of the text. */
  lemma ChunksTile(text: string, start: int)
    requires 0 <= start <= |text|
    ensures text[start..] == Chunk(text, start) + text[ChunkEnd(text, start)..]
  {
  }

  /** Playing goes on after a chunk iff text remains and playback was not stopped. */
  predicate ContinueAfter(text: string, start: int, stillPlaying: bool) {
    ChunkEnd(text, start) < |text| && stillPlaying
  }

  /** Forward moves never pass the last character; backward moves never pass the start. */
  function Forward(position: int, step: int, text: string): (p: int)
    ensures p <= position + step && p <= |text| - 1
    ensures p == position + step || p == |text| - 1
  {
    if position + step < |text| - 1 then position + step else |text| - 1
  }

  function Backward(position: int, step: int): (p: int)
    ensures p >= 0 && p >= position - step
    ensures p == position - step || p == 0
  {
    if position - step > 0 then position - step else 0
  }

  /** A playback speed from the menu, counted in quarters: 0.75 to 2 is 3 to 8. */
  type Quarters = q: int | 3 <= q <= 8 witness 4

  /** `Math.floor(15 * 15 * rate)`: the characters of about 15 seconds of speech. */
  function JumpChars(rate: Quarters): (n: int)
    ensures n * 4 <= 225 * rate < (n + 1) * 4
    ensures 168 <= n <= 450
  {
    225 * rate / 4
  }

  /** For a non-empty text with the position inside it, skips and jumps land inside the text. */
  lemma MovesStayInside(text: string, position: int, rate: Quarters)
    requires 0 <= position < |text|
    ensures 0 <= Forward(position, SkipChars, text) < |text|
    ensures 0 <= Forward(position, JumpChars(rate), text) < |text|
    ensures 0 <= Backward(position, SkipChars) <= position
    ensures 0 <= Backward(position, JumpChars(rate)) <= position
  {
  }

  /** The three display segments. */
  datatype Segments = Segments(before: string, current: string, after: string)

  /** `getTextSegments`: empty without text; otherwise the trimmed text up to
      800 characters before the sentence, the sentence, and up to 800 after. */
  function TextSegments(text: Option<string>, sentenceStart: int, sentenceEnd: int): (seg: Segments)
    ensures text.None? || text.value == "" ==> seg == Segments("", "", "")
    ensures IsTrimmed(seg.before) && IsTrimmed(seg.current) && IsTrimmed(seg.after)
    ensures 0 <= sentenceStart ==> |seg.before| <= TextContextChars
    ensures 0 <= sentenceEnd ==> |seg.after| <= TextContextChars
    ensures text.Some? && text.value != "" && 0 <= sentenceStart <= sentenceEnd <= |text.value| ==>
      seg.current == Trim(text.value[sentenceStart..sentenceEnd])
  {
    if text.None? || text.value == "" then Segments("", "", "")
    else
      var t := text.value;
      var beforeStart := if 0 > sentenceStart - TextContextChars then 0 else sentenceStart - TextContextChars;
      var afterEnd := if |t| < sentenceEnd + TextContextChars then |t| else sentenceEnd + TextContextChars;
      Segments(Trim(Slice(t, beforeStart, sentenceStart)),
               Trim(Slice(t, sentenceStart, sentenceEnd)),
               Trim(Slice(t, sentenceEnd, afterEnd)))
  }

  /** `getVoiceDisplayName`: "Default" without a named voice, the name when it
      has at most 12 characters, else its first 12 characters and "...". */
  function VoiceDisplayName(name: Option<string>): (shown: string)
    ensures name.None? || name.value == "" ==> shown == "Default"
    ensures name.Some? && 0 < |name.value| <= 12 ==> shown == name.value
    ensures name.Some? && |name.value| > 12 ==>
      |shown| == 15 && shown[..12] == name.value[..12] && shown[12..] == "..."
  {
    if name.Some? && name.value != "" then
      if |name.value| > 12 then name.value[..12] + "..." else name.value
    else "Default"
  }

  /** `bookData.currentPosition || 0` for a numeric field. */
  function StoredPosition(book: Record): (p: int)
    ensures Get(book, "currentPosition").Num? ==> p == Get(book, "currentPosition").n
    ensures !Get(book, "currentPosition").Num? ==> p == 0
  {
    var v := Get(book, "currentPosition");
    if v.Num? && Truthy(v) then v.n else 0
  }

  /** The player page's state; `store` is the book store it writes positions to. */
  class PlayerPage {
    const bookId: string
    const store: BookStorage
    var text: Option<string>
    var isPlaying: bool
    var currentPosition: int
    var sentenceStart: int
    var sentenceEnd: int
    var speechRate: Quarters

    constructor (bookId: string, store: BookStorage)
      ensures this.bookId == bookId && this.store == store
      ensures text == None && !isPlaying && currentPosition == 0
      ensures sentenceStart == 0 && sentenceEnd == 0 && speechRate == 4
    {
      this.bookId := bookId;
      this.store := store;
      text := None;
      isPlaying := false;
      currentPosition := 0;
      sentenceStart := 0;
      sentenceEnd := 0;
      speechRate := 4;
    }

    /** `updateDisplayedText`. */
    method UpdateDisplayedText(t: string, position: int)
      modifies this
      ensures sentenceStart == SentenceStart(t, position) && sentenceEnd == SentenceEnd(t, position)
      ensures text == old(text) && isPlaying == old(isPlaying) && currentPosition == old(currentPosition)
      ensures speechRate == old(speechRate)
    {
      sentenceStart := SentenceStart(t, position);
      sentenceEnd := SentenceEnd(t, position);
    }

    /** `loadBook`: the stored book, at its stored position; false when it does not exist. */
    method LoadBook() returns (found: bool)
      modifies this
      ensures found <==> FindById(store.books, bookId).Some?
      ensures found ==>
        var b := FindById(store.books, bookId).value;
        && text == Some(TextOf(b))
        && currentPosition == StoredPosition(b)
        && sentenceStart == SentenceStart(text.value, currentPosition)
        && sentenceEnd == SentenceEnd(text.value, currentPosition)
      ensures !found ==> text == old(text) && currentPosition == old(currentPosition)
      ensures isPlaying == old(isPlaying) && speechRate == old(speechRate)
    {
      var book := store.Get(bookId);
      if book.None? {
        return false;
      }
      var t := TextOf(book.value);
      text := Some(t);
      currentPosition := StoredPosition(book.value);
      UpdateDisplayedText(t, currentPosition);
      found := true;
    }

    /** The part of `speakChunk` before speech starts: a blank chunk stops
        playback; otherwise playback is on at the chunk's start. */
    method StartChunk(t: string, start: int)
      modifies this
      ensures text == old(text) && speechRate == old(speechRate)
      ensures Trim(Chunk(t, start)) == "" ==>
        !isPlaying && currentPosition == old(currentPosition) &&
        sentenceStart == old(sentenceStart) && sentenceEnd == old(sentenceEnd)
      ensures Trim(Chunk(t, start)) != "" ==>
        isPlaying && currentPosition == start &&
        sentenceStart == SentenceStart(t, start) && sentenceEnd == SentenceEnd(t, start)
    {
      if Trim(Chunk(t, start)) == "" {
        isPlaying := false;
      } else {
        isPlaying, currentPosition := true, start;
        UpdateDisplayedText(t, start);
      }
    }

    /** The part of `speakChunk` after a chunk was spoken: the position moves
        to the chunk's end and is stored; returns where to continue, if anywhere. */
    method ChunkSpoken(t: string, start: int, now: string) returns (next: Option<int>)
      modifies this, store
      ensures currentPosition == ChunkEnd(t, start)
      ensures sentenceStart == SentenceStart(t, currentPosition) && sentenceEnd == SentenceEnd(t, currentPosition)
      ensures store.books == UpdatedBooks(old(store.books), bookId, map["currentPosition" := Num(ChunkEnd(t, start))], now)
      ensures ContinueAfter(t, start, old(isPlaying)) ==> next == Some(ChunkEnd(t, start)) && isPlaying
      ensures !ContinueAfter(t, start, old(isPlaying)) ==> next == None && !isPlaying
      ensures text == old(text) && speechRate == old(speechRate)
    {
      var chunkEnd := ChunkEnd(t, start);
      currentPosition := chunkEnd;
      UpdateDisplayedText(t, chunkEnd);
      var _ := store.Update(bookId, map["currentPosition" := Num(chunkEnd)], now);
      if chunkEnd < |t| && isPlaying {
        next := Some(chunkEnd);
      } else {
        isPlaying := false;
        next := None;
      }
    }

    /** Speech failed or was stopped. */
    method SpeechFailed()
      modifies this
      ensures !isPlaying
      ensures text == old(text) && currentPosition == old(currentPosition) && speechRate == old(speechRate)
      ensures sentenceStart == old(sentenceStart) && sentenceEnd == old(sentenceEnd)
    {
      isPlaying := false;
    }

    /** Pause stores the position; play speaks from it. */
    method TogglePlayPause(now: string)
      modifies this, store
      ensures old(text).None? ==> isPlaying == old(isPlaying) && store.books == old(store.books) &&
                                  currentPosition == old(currentPosition)
      ensures old(text).Some? && old(isPlaying) ==>
        !isPlaying && currentPosition == old(currentPosition) &&
        store.books == UpdatedBooks(old(store.books), bookId, map["currentPosition" := Num(old(currentPosition))], now)
      ensures old(text).Some? && !old(isPlaying) ==>
        store.books == old(store.books) &&
        (isPlaying <==> Trim(Chunk(old(text).value, old(currentPosition))) != "") &&
        currentPosition == old(currentPosition)
      ensures old(text).None? || old(isPlaying) ==>
        sentenceStart == old(sentenceStart) && sentenceEnd == old(sentenceEnd)
      ensures old(text).Some? && !old(isPlaying) ==>
        var t, p := old(text).value, old(currentPosition);
        && (Trim(Chunk(t, p)) != "" ==> sentenceStart == SentenceStart(t, p) && sentenceEnd == SentenceEnd(t, p))
        && (Trim(Chunk(t, p)) == "" ==> sentenceStart == old(sentenceStart) && sentenceEnd == old(sentenceEnd))
      ensures text == old(text) && speechRate == old(speechRate)
    {
      if text.None? {
        return;
      }
      if isPlaying {
        isPlaying := false;
        var _ := store.Update(bookId, map["currentPosition" := Num(currentPosition)], now);
      } else {
        StartChunk(text.value, currentPosition);
      }
    }

    /** Shared tail of the skip and jump buttons: move, redisplay, store, and
        restart speech from the new position when playing. */
    method MoveTo(newPosition: int, now: string)
      requires text.Some?
      modifies this, store
      ensures text == old(text) && speechRate == old(speechRate)
      ensures currentPosition == newPosition
      ensures store.books == UpdatedBooks(old(store.books), bookId, map["currentPosition" := Num(newPosition)], now)
      ensures sentenceStart == SentenceStart(old(text).value, newPosition) &&
              sentenceEnd == SentenceEnd(old(text).value, newPosition)
      ensures !old(isPlaying) ==> !isPlaying
      ensures old(isPlaying) ==> (isPlaying <==> Trim(Chunk(old(text).value, newPosition)) != "")
    {
      currentPosition := newPosition;
      UpdateDisplayedText(text.value, newPosition);
      var _ := store.Update(bookId, map["currentPosition" := Num(newPosition)], now);
      if isPlaying {
        StartChunk(text.value, newPosition);
      }
    }

    /** The skip and jump buttons; each does nothing before the book is loaded. */
    method SkipForward(now: string)
      modifies this, store
      ensures text == old(text) && speechRate == old(speechRate)
      ensures old(text).None? ==>
        currentPosition == old(currentPosition) && isPlaying == old(isPlaying) && store.books == old(store.books)
      ensures old(text).Some? ==>
        var p := Forward(old(currentPosition), SkipChars, old(text).value);
        && currentPosition == p
        && store.books == UpdatedBooks(old(store.books), bookId, map["currentPosition" := Num(p)], now)
        && sentenceStart == SentenceStart(old(text).value, p) && sentenceEnd == SentenceEnd(old(text).value, p)
        && (!old(isPlaying) ==> !isPlaying)
        && (old(isPlaying) ==> (isPlaying <==> Trim(Chunk(old(text).value, p)) != ""))
    {
      if text.None? { return; }
      MoveTo(Forward(currentPosition, SkipChars, text.value), now);
    }

    method SkipBackward(now: string)
      modifies this, store
      ensures text == old(text) && speechRate == old(speechRate)
      ensures old(text).None? ==>
        currentPosition == old(currentPosition) && isPlaying == old(isPlaying) && store.books == old(store.books)
      ensures old(text).Some? ==>
        var p := Backward(old(currentPosition), SkipChars);
        && currentPosition == p
        && store.books == UpdatedBooks(old(store.books), bookId, map["currentPosition" := Num(p)], now)
        && sentenceStart == SentenceStart(old(text).value, p) && sentenceEnd == SentenceEnd(old(text).value, p)
        && (!old(isPlaying) ==> !isPlaying)
        && (old(isPlaying) ==> (isPlaying <==> Trim(Chunk(old(text).value, p)) != ""))
    {
      if text.None? { return; }
      MoveTo(Backward(currentPosition, SkipChars), now);
    }

    method Jump15SecondsForward(now: string)
      modifies this, store
      ensures text == old(text) && speechRate == old(speechRate)
      ensures old(text).None? ==>
        currentPosition == old(currentPosition) && isPlaying == old(isPlaying) && store.books == old(store.books)
      ensures old(text).Some? ==>
        var p := Forward(old(currentPosition), JumpChars(old(speechRate)), old(text).value);
        && currentPosition == p
        && store.books == UpdatedBooks(old(store.books), bookId, map["currentPosition" := Num(p)], now)
        && sentenceStart == SentenceStart(old(text).value, p) && sentenceEnd == SentenceEnd(old(text).value, p)
        && (!old(isPlaying) ==> !isPlaying)
        && (old(isPlaying) ==> (isPlaying <==> Trim(Chunk(old(text).value, p)) != ""))
    {
      if text.None? { return; }
      MoveTo(Forward(currentPosition, JumpChars(speechRate), text.value), now);
    }

    method Jump15SecondsBackward(now: string)
      modifies this, store
      ensures text == old(text) && speechRate == old(speechRate)
      ensures old(text).None? ==>
        currentPosition == old(currentPosition) && isPlaying == old(isPlaying) && store.books == old(store.books)
      ensures old(text).Some? ==>
        var p := Backward(old(currentPosition), JumpChars(old(speechRate)));
        && currentPosition == p
        && store.books == UpdatedBooks(old(store.books), bookId, map["currentPosition" := Num(p)], now)
        && sentenceStart == SentenceStart(old(text).value, p) && sentenceEnd == SentenceEnd(old(text).value, p)
        && (!old(isPlaying) ==> !isPlaying)
        && (old(isPlaying) ==> (isPlaying <==> Trim(Chunk(old(text).value, p)) != ""))
    {
      if text.None? { return; }
      MoveTo(Backward(currentPosition, JumpChars(speechRate)), now);
    }

    /** A new speed; playback restarts from the current position at that speed. */
    method SpeedChange(rate: Quarters)
      modifies this
      ensures speechRate == rate && text == old(text) && currentPosition == old(currentPosition)
      ensures !(old(isPlaying) && old(text).Some?) ==> isPlaying == old(isPlaying)
      ensures old(isPlaying) && old(text).Some? ==>
        (isPlaying <==> Trim(Chunk(old(text).value, old(currentPosition))) != "")
      ensures !(old(isPlaying) && old(text).Some?) ==>
        sentenceStart == old(sentenceStart) && sentenceEnd == old(sentenceEnd)
      ensures old(isPlaying) && old(text).Some? ==>
        var t, p := old(text).value, old(currentPosition);
        && (Trim(Chunk(t, p)) != "" ==> sentenceStart == SentenceStart(t, p) && sentenceEnd == SentenceEnd(t, p))
        && (Trim(Chunk(t, p)) == "" ==> sentenceStart == old(sentenceStart) && sentenceEnd == old(sentenceEnd))
    {
      speechRate := rate;
      if isPlaying && text.Some? {
        StartChunk(text.value, currentPosition);
      }
    }
  }
}
