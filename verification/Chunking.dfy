/** Fixed-window chunking of a text: stripped windows with their offsets. */
module Chunking {
  import opened Text

  datatype Chunk = Chunk(index: nat, startOffset: nat, endOffset: nat, text: string, preview: string)

  /** The text without its whitespace. */
  function Squeeze(s: string): string {
    if s == "" then "" else (if Space(s[0]) then "" else [s[0]]) + Squeeze(s[1..])
  }

  lemma {:induction false} SqueezeConcat(a: string, b: string)
    ensures Squeeze(a + b) == Squeeze(a) + Squeeze(b)
  {
    if a == "" {
      assert a + b == b;
    } else {
      SqueezeConcat(a[1..], b);
      assert (a + b)[1..] == a[1..] + b;
    }
  }

  lemma {:induction false} SqueezeStripLeft(s: string)
    ensures Squeeze(StripLeft(s)) == Squeeze(s)
  {
    if s != "" && Space(s[0]) {
      SqueezeStripLeft(s[1..]);
    }
  }

  lemma {:induction false} SqueezeStripRight(s: string)
    ensures Squeeze(StripRight(s)) == Squeeze(s)
  {
    if s != "" && Space(s[|s| - 1]) {
      SqueezeStripRight(s[..|s| - 1]);
      SqueezeConcat(s[..|s| - 1], [s[|s| - 1]]);
      assert s == s[..|s| - 1] + [s[|s| - 1]];
    }
  }

  function Texts(chunks: seq<Chunk>): string {
    if chunks == [] then "" else chunks[0].text + Texts(chunks[1..])
  }

  lemma {:induction false} TextsSnoc(chunks: seq<Chunk>, c: Chunk)
    ensures Texts(chunks + [c]) == Texts(chunks) + c.text
  {
    if chunks == [] {
      assert chunks + [c] == [c];
    } else {
      TextsSnoc(chunks[1..], c);
      assert (chunks + [c])[1..] == chunks[1..] + [c];
    }
  }

  function WindowEnd(text: string, start: nat, maxChars: nat): (end: nat)
    requires start <= |text|
    ensures start <= end <= |text| && end - start <= maxChars
  {
    if start + maxChars <= |text| then start + maxChars else |text|
  }

  /** The `index`-th value of `range(0, n, maxChars)` */
  function Offset(index: nat, maxChars: nat): nat {
    if index == 0 then 0 else Offset(index - 1, maxChars) + maxChars
  }

  lemma {:induction false} OffsetsApart(i: nat, j: nat, maxChars: nat)
    requires i < j
    ensures Offset(i, maxChars) + maxChars <= Offset(j, maxChars)
  {
    if i + 1 < j {
      OffsetsApart(i, j - 1, maxChars);
    }
  }

  /** The stripped, non-empty content of the window that starts at the chunk's offset. */
  predicate Quotes(c: Chunk, text: string, maxChars: nat) {
    && c.startOffset < |text|
    && c.text == Strip(text[c.startOffset..WindowEnd(text, c.startOffset, maxChars)])
    && c.text != "" && |c.text| <= maxChars
    && c.endOffset == c.startOffset + |c.text| <= |text|
    && c.preview <= c.text && |c.preview| == (if |c.text| <= 500 then |c.text| else 500)
  }

  predicate ChunksInOrder(chunks: seq<Chunk>, text: string, maxChars: nat) {
    && (forall i {:trigger Quotes(chunks[i], text, maxChars)} :: 0 <= i < |chunks| ==> Quotes(chunks[i], text, maxChars))
    && (forall i :: 0 <= i < |chunks| ==> chunks[i].startOffset == Offset(chunks[i].index, maxChars))
    && (forall i, j :: 0 <= i < j < |chunks| ==> chunks[i].index < chunks[j].index)
  }

  /** What the loop has after looking at the windows before `index`, which starts at `start`. */
  predicate Progress(chunks: seq<Chunk>, text: string, maxChars: nat, index: nat, start: nat) {
    && start == Offset(index, maxChars)
    && ChunksInOrder(chunks, text, maxChars)
    && (forall i :: 0 <= i < |chunks| ==> chunks[i].index < index)
    && Squeeze(Texts(chunks)) == Squeeze(Before(text, start))
  }

  function MakeChunk(chunkText: string, index: nat, start: nat): Chunk {
    Chunk(index, start, start + |chunkText|, chunkText, if |chunkText| <= 500 then chunkText else chunkText[..500])
  }

  function Before(text: string, start: nat): string {
    if start <= |text| then text[..start] else text
  }

  lemma WindowSqueezed(text: string, start: nat, maxChars: nat, chunkText: string)
    requires start < |text| && chunkText == Strip(text[start..WindowEnd(text, start, maxChars)])
    ensures Squeeze(Before(text, start)) + Squeeze(chunkText) == Squeeze(Before(text, start + maxChars))
  {
    var end := WindowEnd(text, start, maxChars);
    assert text[..end] == text[..start] + text[start..end];
    assert text[..|text|] == text;
    SqueezeConcat(text[..start], text[start..end]);
    SqueezeStripLeft(text[start..end]);
    SqueezeStripRight(StripLeft(text[start..end]));
  }

  lemma OrderKept(chunks: seq<Chunk>, c: Chunk, text: string, maxChars: nat, index: nat)
    requires ChunksInOrder(chunks, text, maxChars) && forall i :: 0 <= i < |chunks| ==> chunks[i].index < index
    requires Quotes(c, text, maxChars) && c.index == index && c.startOffset == Offset(index, maxChars)
    ensures ChunksInOrder(chunks + [c], text, maxChars)
    ensures forall i :: 0 <= i < |chunks + [c]| ==> (chunks + [c])[i].index < index + 1
  {
  }

  lemma MadeChunkQuotes(text: string, maxChars: nat, index: nat, start: nat)
    requires start < |text|
    ensures var chunkText := Strip(text[start..WindowEnd(text, start, maxChars)]);
            chunkText != "" ==> Quotes(MakeChunk(chunkText, index, start), text, maxChars)
  {
  }

  lemma WindowEmpty(chunks: seq<Chunk>, text: string, maxChars: nat, index: nat, start: nat)
    requires maxChars > 0 && start < |text| && Progress(chunks, text, maxChars, index, start)
    requires "" == Strip(text[start..WindowEnd(text, start, maxChars)])
    ensures Progress(chunks, text, maxChars, index + 1, start + maxChars)
  {
    WindowSqueezed(text, start, maxChars, "");
  }

  lemma WindowChunked(chunks: seq<Chunk>, text: string, maxChars: nat, index: nat, start: nat, chunkText: string)
    requires maxChars > 0 && start < |text| && Progress(chunks, text, maxChars, index, start)
    requires chunkText == Strip(text[start..WindowEnd(text, start, maxChars)]) && chunkText != ""
    ensures Progress(chunks + [MakeChunk(chunkText, index, start)], text, maxChars, index + 1, start + maxChars)
  {
    var c := MakeChunk(chunkText, index, start);
    MadeChunkQuotes(text, maxChars, index, start);
    OrderKept(chunks, c, text, maxChars, index);
    TextsSnoc(chunks, c);
    SqueezeConcat(Texts(chunks), chunkText);
    WindowSqueezed(text, start, maxChars, chunkText);
  }

  method ChunkWindow(text: string, maxChars: nat, chunks0: seq<Chunk>, index: nat, start: nat) returns (chunks: seq<Chunk>)
    requires maxChars > 0 && start < |text| && Progress(chunks0, text, maxChars, index, start)
    ensures Progress(chunks, text, maxChars, index + 1, start + maxChars)
  {
    var chunkText := Strip(text[start..WindowEnd(text, start, maxChars)]);
    if chunkText == "" {
      WindowEmpty(chunks0, text, maxChars, index, start);
      return chunks0;
    }
    WindowChunked(chunks0, text, maxChars, index, start, chunkText);
    chunks := chunks0 + [MakeChunk(chunkText, index, start)];
  }

  method ChunkWindows(text: string, maxChars: nat) returns (chunks: seq<Chunk>)
    requires maxChars > 0
    ensures ChunksInOrder(chunks, text, maxChars) && Squeeze(Texts(chunks)) == Squeeze(text)
  {
    chunks := [];
    var index, start := 0, 0;
    NoWindowYet(text, maxChars);
    while start < |text|
      invariant Progress(chunks, text, maxChars, index, start)
      decreases |text| - start
    {
      chunks := ChunkWindow(text, maxChars, chunks, index, start);
      index, start := index + 1, start + maxChars;
    }
    AllWindowsDone(chunks, text, maxChars, index, start);
  }

  lemma NoWindowYet(text: string, maxChars: nat)
    ensures Progress([], text, maxChars, 0, 0)
  {
  }

  lemma AllWindowsDone(chunks: seq<Chunk>, text: string, maxChars: nat, index: nat, start: nat)
    requires Progress(chunks, text, maxChars, index, start) && start >= |text|
    ensures ChunksInOrder(chunks, text, maxChars) && Squeeze(Texts(chunks)) == Squeeze(text)
  {
    assert text[..|text|] == text;
  }

  /** `range(0, n, 0)` raises; a negative step yields no window at all. */
  method ChunkArtifact(text: string, maxChars: int) returns (result: Option<seq<Chunk>>)
    ensures result.None? <==> maxChars == 0
    ensures maxChars < 0 ==> result == Some([])
    ensures maxChars > 0 ==> ChunksInOrder(result.value, text, maxChars) && Squeeze(Texts(result.value)) == Squeeze(text)
  {
    if maxChars == 0 {
      return None;
    } else if maxChars < 0 {
      return Some([]);
    }
    var chunks := ChunkWindows(text, maxChars);
    result := Some(chunks);
  }

  /** Different chunks come from disjoint windows, in text order. */
  lemma WindowsDisjoint(chunks: seq<Chunk>, text: string, maxChars: nat, i: nat, j: nat)
    requires ChunksInOrder(chunks, text, maxChars) && i < j < |chunks|
    ensures chunks[i].startOffset + maxChars <= chunks[j].startOffset
    ensures chunks[i].endOffset <= chunks[j].startOffset
  {
    assert Quotes(chunks[i], text, maxChars);
    OffsetsApart(chunks[i].index, chunks[j].index, maxChars);
  }

  lemma StripLeftKeepsStart(s: string)
    requires s != "" && !Space(s[0])
    ensures Strip(s) <= s
  {
  }

  /** The recorded offsets quote the chunk exactly when its window does not start with whitespace: stripping on the left
      does not move the start offset. */
  lemma OffsetsQuoteChunk(c: Chunk, text: string, maxChars: nat)
    requires Quotes(c, text, maxChars)
    ensures text[c.startOffset..c.endOffset] == c.text <==> !Space(text[c.startOffset])
  {
    var window := text[c.startOffset..WindowEnd(text, c.startOffset, maxChars)];
    assert window[0] == text[c.startOffset] == text[c.startOffset..c.endOffset][0];
    if !Space(window[0]) {
      StripLeftKeepsStart(window);
      assert window[..|c.text|] == text[c.startOffset..c.endOffset];
    }
  }
}
