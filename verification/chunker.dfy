/**
  The text splitter `chunk_text`: it walks the text in windows of at most
  `chunkSize` characters, cuts each window at the last code fence, else the last
  paragraph break, else the last sentence break, provided the cut lies past 30%
  of `chunkSize`, and emits every window stripped of surrounding whitespace.
 */
module Chunker {

  import opened Text

  /** The chunk size `chunk_text` uses when its caller gives none. */
  const DefaultChunkSize: nat := 5000

  const Fence := "```"
  const ParagraphBreak := "\n\n"
  const SentenceBreak := ". "

  /** Offset `pos` into a window lies past 30% of `chunkSize`. The source compares
      `pos > chunk_size * 0.3` in floating point; this is the exact comparison. */
  predicate PastThreshold(pos: int, chunkSize: nat) {
    10 * pos > 3 * chunkSize
  }

  /** The window the loop inspects when it is not yet at the end of the text. */
  function Window(text: string, chunkSize: nat, start: nat): string
    requires start + chunkSize <= |text|
  {
    text[start..start + chunkSize]
  }

  /** Where the window starting at `start` is cut: the value of `end` after the
      fence / paragraph / sentence cascade of one loop iteration. */
  function BreakEnd(text: string, chunkSize: nat, start: nat): (end: nat)
    requires start + chunkSize < |text|
    ensures start <= end <= start + chunkSize
    ensures 0 < chunkSize ==> start < end && PastThreshold(end - start, chunkSize)
  {
    var chunk := Window(text, chunkSize, start);
    var codeBlock := RFind(chunk, Fence);
    if codeBlock != -1 && PastThreshold(codeBlock, chunkSize) then
      start + codeBlock
    else if Contains(chunk, ParagraphBreak) then
      var lastBreak := RFind(chunk, ParagraphBreak);
      if PastThreshold(lastBreak, chunkSize) then start + lastBreak else start + chunkSize
    else if Contains(chunk, SentenceBreak) then
      var lastPeriod := RFind(chunk, SentenceBreak);
      if PastThreshold(lastPeriod, chunkSize) then start + lastPeriod + 1 else start + chunkSize
    else
      start + chunkSize
  }

  /** `max(start + 1, end)`: the cursor of the next iteration. It always moves
      forward, and with a positive chunk size it lands exactly on the cut, so
      no character is skipped. */
  function NextStart(text: string, chunkSize: nat, start: nat): (next: nat)
    requires start + chunkSize < |text|
    ensures start < next <= |text|
    ensures 0 < chunkSize ==> next == BreakEnd(text, chunkSize, start)
    ensures chunkSize == 0 ==> next == start + 1
  {
    var end := BreakEnd(text, chunkSize, start);
    if start + 1 > end then start + 1 else end
  }

  /** The chunks the loop emits from cursor `start` onwards. */
  function ChunkLoop(text: string, chunkSize: nat, start: nat): (chunks: seq<string>)
    requires start <= |text|
    ensures start == |text| || chunkSize == 0 ==> chunks == []
    ensures 0 < chunkSize && start < |text| ==> chunks != []
    ensures forall i :: 0 <= i < |chunks| ==> IsTrimmed(chunks[i]) && |chunks[i]| <= chunkSize
    ensures forall i :: 0 <= i < |chunks| - 1 ==> chunks[i] != []
    decreases |text| - start
  {
    if start == |text| then
      []
    else if start + chunkSize >= |text| then
      // the rest of the text fits: it is emitted even when it strips to nothing
      [Strip(text[start..])]
    else
      var end := BreakEnd(text, chunkSize, start);
      var chunk := Strip(text[start..end]);
      (if chunk != [] then [chunk] else []) + ChunkLoop(text, chunkSize, NextStart(text, chunkSize, start))
  }

  /** `chunk_text(text, chunk_size)`. */
  function ChunkText(text: string, chunkSize: nat): (chunks: seq<string>)
    ensures |text| == 0 || chunkSize == 0 ==> chunks == []
    ensures 0 < |text| <= chunkSize ==> chunks == [Strip(text)]
    ensures 0 < |text| && 0 < chunkSize ==> chunks != []
    ensures forall i :: 0 <= i < |chunks| ==> IsTrimmed(chunks[i]) && |chunks[i]| <= chunkSize
    ensures forall i :: 0 <= i < |chunks| - 1 ==> chunks[i] != []
  {
    ChunkLoop(text, chunkSize, 0)
  }

  /** Every window stripped, in order. */
  function StripAll(windows: seq<string>): (chunks: seq<string>)
    ensures |chunks| == |windows|
  {
    if windows == [] then [] else [Strip(windows[0])] + StripAll(windows[1..])
  }

  /** The non-empty strings of `ss`, in order. */
  function DropEmpty(ss: seq<string>): (r: seq<string>)
    ensures |r| <= |ss|
  {
    if ss == [] then []
    else (if ss[0] != [] then [ss[0]] else []) + DropEmpty(ss[1..])
  }

  /** What the loop emits for a run of windows: each stripped, empty ones
      dropped, except the last, which is always emitted. */
  function Emitted(windows: seq<string>): seq<string>
    requires windows != []
  {
    DropEmpty(StripAll(windows[..|windows| - 1])) + [Strip(windows[|windows| - 1])]
  }

  lemma EmittedCons(w: string, ws: seq<string>)
    requires ws != []
    ensures Emitted([w] + ws) == (if Strip(w) != [] then [Strip(w)] else []) + Emitted(ws)
  {
    var front := ws[..|ws| - 1];
    var all := [w] + ws;
    assert all[..|all| - 1] == [w] + front;
    assert all[|all| - 1] == ws[|ws| - 1];
    StripAllCons(w, front);
  }

  lemma StripAllCons(w: string, ws: seq<string>)
    ensures StripAll([w] + ws) == [Strip(w)] + StripAll(ws)
  {
    assert ([w] + ws)[1..] == ws;
  }

  /** The raw windows `text[start:end]` the loop cuts from cursor `start`
      onwards, before stripping: they tile the rest of the text exactly. */
  function WindowsFrom(text: string, chunkSize: nat, start: nat): (windows: seq<string>)
    requires 0 < chunkSize && start <= |text|
    ensures Concat(windows) == text[start..]
    ensures windows == [] <==> start == |text|
    ensures forall i :: 0 <= i < |windows| ==> 0 < |windows[i]| <= chunkSize
    ensures forall i :: 0 <= i < |windows| - 1 ==> PastThreshold(|windows[i]|, chunkSize)
    decreases |text| - start
  {
    if start == |text| then
      []
    else if start + chunkSize >= |text| then
      [text[start..]]
    else
      var end := BreakEnd(text, chunkSize, start);
      var rest := WindowsFrom(text, chunkSize, end);
      assert text[start..] == text[start..end] + text[end..];
      assert ([text[start..end]] + rest)[1..] == rest;
      [text[start..end]] + rest
  }

  /** The chunks are the stripped windows, empty ones dropped except the last,
      which is always emitted. */
  lemma {:induction false} ChunksAreStrippedWindows(text: string, chunkSize: nat, start: nat)
    requires 0 < chunkSize && start < |text|
    ensures ChunkLoop(text, chunkSize, start) == Emitted(WindowsFrom(text, chunkSize, start))
    decreases |text| - start
  {
    var windows := WindowsFrom(text, chunkSize, start);
    if start + chunkSize < |text| {
      var end := BreakEnd(text, chunkSize, start);
      var w := text[start..end];
      var rest := WindowsFrom(text, chunkSize, end);
      assert windows == [w] + rest;
      EmittedCons(w, rest);
      ChunksAreStrippedWindows(text, chunkSize, end);
      assert ChunkLoop(text, chunkSize, start)
          == (if Strip(w) != [] then [Strip(w)] else []) + ChunkLoop(text, chunkSize, end);
    } else {
      assert windows == [text[start..]];
      assert windows[..0] == [];
    }
  }

  /** Whole-text form: the windows of `text` concatenate back to `text`, and the
      chunks are those windows stripped. */
  lemma WindowsTileText(text: string, chunkSize: nat)
    requires 0 < chunkSize && 0 < |text|
    ensures Concat(WindowsFrom(text, chunkSize, 0)) == text
    ensures ChunkText(text, chunkSize) == Emitted(WindowsFrom(text, chunkSize, 0))
  {
    ChunksAreStrippedWindows(text, chunkSize, 0);
  }

  /** How many windows a text splits into: at least |text| / chunkSize, since
      none is longer than `chunkSize`, and fewer than 10|text| / 3chunkSize + 1,
      since every window but the last is longer than 30% of `chunkSize`. */
  lemma {:induction false} WindowCountBounds(text: string, chunkSize: nat, start: nat)
    requires 0 < chunkSize && start <= |text|
    ensures var n := |WindowsFrom(text, chunkSize, start)|;
            && |text| - start <= n * chunkSize
            && (0 < n ==> 3 * chunkSize * (n - 1) < 10 * (|text| - start))
    decreases |text| - start
  {
    if start < |text| && start + chunkSize < |text| {
      var end := BreakEnd(text, chunkSize, start);
      WindowCountBounds(text, chunkSize, end);
      var rest := WindowsFrom(text, chunkSize, end);
      assert WindowsFrom(text, chunkSize, start) == [text[start..end]] + rest;
      CountStep(|rest|, chunkSize, |text| - start, |text| - end);
    }
  }

  lemma CountStep(m: nat, chunkSize: nat, total: nat, remaining: nat)
    requires 0 < chunkSize && remaining < total <= remaining + chunkSize
    requires PastThreshold(total - remaining, chunkSize)
    requires remaining <= m * chunkSize
    requires 0 < m ==> 3 * chunkSize * (m - 1) < 10 * remaining
    ensures total <= (m + 1) * chunkSize
    ensures 3 * chunkSize * m < 10 * total
  {
    assert (m + 1) * chunkSize == m * chunkSize + chunkSize;
    if 0 < m {
      assert 3 * chunkSize * m == 3 * chunkSize * (m - 1) + 3 * chunkSize;
    }
  }

  /** Some occurrence of `pat` in window `w` lies past 30% of `chunkSize`. */
  predicate Qualifies(w: string, pat: string, chunkSize: nat) {
    exists p | 0 <= p <= |w| - |pat| :: OccursAt(w, pat, p) && PastThreshold(p, chunkSize)
  }

  /** `p` is the last occurrence of `pat` in `w`. */
  ghost predicate LastOccurrence(w: string, pat: string, p: int) {
    OccursAt(w, pat, p) && forall q :: p < q ==> !OccursAt(w, pat, q)
  }

  /** A slice of the window is the same slice of the text, shifted by `start`. */
  lemma WindowSlice(text: string, chunkSize: nat, start: nat, p: nat, n: nat)
    requires start + chunkSize <= |text| && p + n <= chunkSize
    ensures Window(text, chunkSize, start)[p..p + n] == text[start + p..start + p + n]
  {
    var w := Window(text, chunkSize, start);
    var inWindow, inText := w[p..p + n], text[start + p..start + p + n];
    assert forall k | 0 <= k < n :: inWindow[k] == inText[k];
  }

  /** Some occurrence qualifies exactly when the last one does. */
  lemma QualifiesAtLast(w: string, pat: string, chunkSize: nat)
    ensures Qualifies(w, pat, chunkSize)
            <==> RFind(w, pat) != -1 && PastThreshold(RFind(w, pat), chunkSize)
  {
    var r := RFind(w, pat);
    if Qualifies(w, pat, chunkSize) {
      var p :| 0 <= p <= |w| - |pat| && OccursAt(w, pat, p) && PastThreshold(p, chunkSize);
      assert r >= p;
    }
  }

  /** A code fence past 30% of the window wins over every other break: the cut
      is placed just before the last fence of the window, so that fence opens
      the next window. */
  lemma FenceCut(text: string, chunkSize: nat, start: nat)
    requires start + chunkSize < |text|
    requires Qualifies(Window(text, chunkSize, start), Fence, chunkSize)
    ensures var end := BreakEnd(text, chunkSize, start);
            && LastOccurrence(Window(text, chunkSize, start), Fence, end - start)
            && end + |Fence| <= |text| && text[end..end + |Fence|] == Fence
  {
    var w := Window(text, chunkSize, start);
    QualifiesAtLast(w, Fence, chunkSize);
    var end := BreakEnd(text, chunkSize, start);
    WindowSlice(text, chunkSize, start, end - start, |Fence|);
  }

  /** Without a qualifying fence, a window holding a paragraph break is cut just
      before its last paragraph break when that lies past 30%, and otherwise at
      the full `chunkSize`: the sentence rule is not consulted, even when a
      sentence break would qualify. */
  lemma ParagraphCut(text: string, chunkSize: nat, start: nat)
    requires start + chunkSize < |text|
    requires !Qualifies(Window(text, chunkSize, start), Fence, chunkSize)
    requires Contains(Window(text, chunkSize, start), ParagraphBreak)
    ensures var end := BreakEnd(text, chunkSize, start);
            Qualifies(Window(text, chunkSize, start), ParagraphBreak, chunkSize) ==>
              && LastOccurrence(Window(text, chunkSize, start), ParagraphBreak, end - start)
              && end + |ParagraphBreak| <= |text| && text[end..end + |ParagraphBreak|] == ParagraphBreak
    ensures !Qualifies(Window(text, chunkSize, start), ParagraphBreak, chunkSize) ==>
              BreakEnd(text, chunkSize, start) == start + chunkSize
  {
    var w := Window(text, chunkSize, start);
    QualifiesAtLast(w, Fence, chunkSize);
    QualifiesAtLast(w, ParagraphBreak, chunkSize);
    var end := BreakEnd(text, chunkSize, start);
    if Qualifies(w, ParagraphBreak, chunkSize) {
      assert end - start == RFind(w, ParagraphBreak);
      WindowSlice(text, chunkSize, start, end - start, |ParagraphBreak|);
    }
  }

  /** Only a window with neither a qualifying fence nor any paragraph break is
      cut at a sentence break: one character after the period of the last ". "
      when that lies past 30%, and otherwise at the full `chunkSize`. */
  lemma SentenceCut(text: string, chunkSize: nat, start: nat)
    requires start + chunkSize < |text|
    requires !Qualifies(Window(text, chunkSize, start), Fence, chunkSize)
    requires !Contains(Window(text, chunkSize, start), ParagraphBreak)
    ensures var end := BreakEnd(text, chunkSize, start);
            Qualifies(Window(text, chunkSize, start), SentenceBreak, chunkSize) ==>
              && LastOccurrence(Window(text, chunkSize, start), SentenceBreak, end - start - 1)
              && end < |text| && text[end - 1] == '.' && text[end] == ' '
    ensures !Qualifies(Window(text, chunkSize, start), SentenceBreak, chunkSize) ==>
              BreakEnd(text, chunkSize, start) == start + chunkSize
  {
    var w := Window(text, chunkSize, start);
    QualifiesAtLast(w, Fence, chunkSize);
    QualifiesAtLast(w, SentenceBreak, chunkSize);
    var end := BreakEnd(text, chunkSize, start);
    if Qualifies(w, SentenceBreak, chunkSize) {
      var p := end - start - 1;
      assert p == RFind(w, SentenceBreak);
      WindowSlice(text, chunkSize, start, p, |SentenceBreak|);
      var cut := text[start + p..start + p + 2];
      assert cut == ['.', ' '];
      assert text[end - 1] == cut[0] && text[end] == cut[1];
    }
  }

  /** Text that fits in one window and is all whitespace still yields one,
      empty, chunk. */
  lemma ShortBlankTextYieldsEmptyChunk(text: string, chunkSize: nat)
    requires 0 < |text| <= chunkSize
    requires AllWhitespace(text)
    ensures ChunkText(text, chunkSize) == [""]
  {
  }

}
