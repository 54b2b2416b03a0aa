/** campus-rag/main.py, `split_long_block`: a block that is too long, cut by sentence or by sliding window. */
module SplitBlock {
  import opened PyStrings
  import opened Sequences

  // ----- Sliding windows -----

  /** The half-open range of positions one window covers. */
  datatype Window = Window(start: int, end: int)

  /**
   The windows the loop visits. `start` moves to `max(end - overlap, start + 1)`, so
   it always moves.
   */
  function WindowsFrom(start: int, n: int, limit: int, overlap: int): seq<Window>
    decreases n - start
  {
    if start >= n then []
    else
      var end := Min(n, start + limit);
      if end >= n then [Window(start, end)]
      else [Window(start, end)] + WindowsFrom(Max(end - overlap, start + 1), n, limit, overlap)
  }

  /** A window's text, stripped; nothing when that is empty. */
  function WindowText(text: string, w: Window): seq<string> {
    var chunk := Strip(Slice(text, w.start, w.end));
    if chunk == "" then [] else [chunk]
  }

  function TextIn(text: string): Window -> seq<string> {
    w => WindowText(text, w)
  }

  /** What `f` gives for each window, in order. */
  function Gather(f: Window -> seq<string>, windows: seq<Window>): seq<string> {
    if windows == [] then [] else f(windows[0]) + Gather(f, windows[1..])
  }

  function WindowTexts(text: string, windows: seq<Window>): seq<string> {
    Gather(TextIn(text), windows)
  }

  /** What has been gathered once the loop has run on from `start`. */
  function SlideFrom(chunks: seq<string>, f: Window -> seq<string>, start: int, n: int, limit: int, overlap: int): seq<string>
    decreases n - start
  {
    if start >= n then chunks
    else
      var end := Min(n, start + limit);
      if end >= n then chunks + f(Window(start, end))
      else SlideFrom(chunks + f(Window(start, end)), f, Max(end - overlap, start + 1), n, limit, overlap)
  }

  lemma GatherCons(f: Window -> seq<string>, w: Window, rest: seq<Window>, chunks: seq<string>)
    ensures chunks + Gather(f, [w] + rest) == chunks + f(w) + Gather(f, rest)
  {
    assert ([w] + rest)[1..] == rest;
  }

  lemma {:induction false} SlideGathers(chunks: seq<string>, f: Window -> seq<string>, start: int, n: int, limit: int, overlap: int)
    ensures SlideFrom(chunks, f, start, n, limit, overlap) == chunks + Gather(f, WindowsFrom(start, n, limit, overlap))
    decreases n - start
  {
    if start < n {
      var end := Min(n, start + limit);
      var w, next := Window(start, end), Max(end - overlap, start + 1);
      if end >= n {
        assert [w] + [] == [w];
        GatherCons(f, w, [], chunks);
      } else {
        SlideGathers(chunks + f(w), f, next, n, limit, overlap);
        GatherCons(f, w, WindowsFrom(next, n, limit, overlap), chunks);
      }
    }
  }

  /** What the loop does to `chunks` with one window's stripped text. */
  function Appended(chunks: seq<string>, chunk: string): seq<string> {
    if chunk != "" then chunks + [chunk] else chunks
  }

  lemma SlideStep(chunks: seq<string>, chunk: string, text: string, start: int, end: int, limit: int, overlap: int)
    requires start < |text| && end == Min(|text|, start + limit) && chunk == Strip(Slice(text, start, end))
    ensures SlideFrom(chunks, TextIn(text), start, |text|, limit, overlap)
         == if end >= |text| then Appended(chunks, chunk)
            else SlideFrom(Appended(chunks, chunk), TextIn(text), Max(end - overlap, start + 1), |text|, limit, overlap)
  {
    assert chunks + TextIn(text)(Window(start, end)) == Appended(chunks, chunk) by {
      assert chunks + [] == chunks;
    }
  }

  method SlideWindows(text: string, limit: int, overlap: int) returns (chunks: seq<string>)
    ensures chunks == WindowTexts(text, WindowsFrom(0, |text|, limit, overlap))
  {
    chunks := [];
    var start := 0;
    SlideGathers([], TextIn(text), 0, |text|, limit, overlap);
    ghost var result := SlideFrom([], TextIn(text), 0, |text|, limit, overlap);
    while start < |text|
      invariant SlideFrom(chunks, TextIn(text), start, |text|, limit, overlap) == result
      decreases |text| - start
    {
      var end := Min(|text|, start + limit);
      var chunk := Strip(Slice(text, start, end));
      SlideStep(chunks, chunk, text, start, end, limit, overlap);
      if chunk != "" {
        chunks := chunks + [chunk];
      }
      if end >= |text| {
        break;
      }
      start := Max(end - overlap, start + 1);
    }
  }

  /** Characters two consecutive windows share. */
  function Shared(limit: int, overlap: int): int {
    Min(overlap, limit - 1)
  }

  /** ceil(a / b) */
  function CeilDiv(a: nat, b: nat): nat
    requires b > 0
  {
    (a + b - 1) / b
  }

  lemma DivOf(q: nat, r: nat, b: nat)
    requires r < b
    ensures (q * b + r) / b == q
  {
    var x := q * b + r;
    var d := x / b - q;
    assert b * d == r - x % b;
    assert d >= 1 ==> b * d >= b;
    assert d <= -1 ==> b * d <= -1 * b;
  }

  lemma CeilDivStep(a: nat, b: nat)
    requires 0 < b
    ensures a == 0 ==> CeilDiv(a, b) == 0
    ensures 1 <= a <= b ==> CeilDiv(a, b) == 1
    ensures a > b ==> CeilDiv(a, b) == 1 + CeilDiv(a - b, b)
  {
    var q, r := (a + b - 1) / b, (a + b - 1) % b;
    if a == 0 {
      DivOf(0, b - 1, b);
    } else if a <= b {
      DivOf(1, a - 1, b);
    } else {
      assert (q - 1) * b + r == a - b + b - 1;
      assert q >= 1;
      DivOf(q - 1, r, b);
    }
  }

  /** There are 1 + ceil((n - limit) / step) windows, the k-th starting at k * step. */
  lemma {:induction false} WindowPositions(start: nat, n: nat, limit: nat, overlap: nat)
    requires limit >= 1 && start < n
    ensures var step := limit - Shared(limit, overlap);
            var w := WindowsFrom(start, n, limit, overlap);
            && step >= 1
            && |w| == 1 + (if n - start <= limit then 0 else CeilDiv(n - start - limit, step))
            && forall k | 0 <= k < |w| :: w[k] == Window(start + k * step, Min(n, start + k * step + limit))
    decreases n - start
  {
    var step := limit - Shared(limit, overlap);
    var w := WindowsFrom(start, n, limit, overlap);
    if start + limit < n {
      WindowPositions(start + step, n, limit, overlap);
      CeilDivStep(n - start - limit, step);
      var tail := WindowsFrom(start + step, n, limit, overlap);
      assert w == [Window(start, start + limit)] + tail;
      forall k | 1 <= k < |w| ensures w[k] == Window(start + k * step, Min(n, start + k * step + limit)) {
        assert w[k] == tail[k - 1];
        assert start + step + (k - 1) * step == start + k * step;
      }
    }
  }

  /**
   The window theorem: no window is longer than `limit`, the first starts at the first character and
   the last ends at the last, consecutive windows share exactly min(overlap, limit - 1) characters,
   and the number of windows is exact.
   */
  lemma WindowsExact(n: nat, limit: nat, overlap: nat)
    requires 1 <= limit < n
    ensures var step := limit - Shared(limit, overlap);
            var w := WindowsFrom(0, n, limit, overlap);
            && |w| == 1 + CeilDiv(n - limit, step)
            && w[0].start == 0 && w[|w| - 1].end == n
            && (forall k | 0 <= k < |w| :: 0 <= w[k].start < w[k].end <= n && w[k].end - w[k].start <= limit)
            && (forall k | 0 <= k < |w| - 1 :: w[k].end - w[k].start == limit && w[k].end - w[k + 1].start == Shared(limit, overlap))
  {
    WindowPositions(0, n, limit, overlap);
    WindowsReachEnd(0, n, limit, overlap);
    var w := WindowsFrom(0, n, limit, overlap);
    forall k | 0 <= k < |w| - 1
      ensures w[k].end - w[k].start == limit && w[k].end - w[k + 1].start == Shared(limit, overlap)
    {
      NextStart(0, n, limit, overlap, k);
    }
  }

  lemma NextStart(start: nat, n: nat, limit: nat, overlap: nat, k: nat)
    requires limit >= 1 && start < n && k + 1 < |WindowsFrom(start, n, limit, overlap)|
    ensures var w := WindowsFrom(start, n, limit, overlap);
            w[k + 1].start == w[k].start + limit - Shared(limit, overlap)
  {
    var step := limit - Shared(limit, overlap);
    WindowPositions(start, n, limit, overlap);
    assert (k + 1) * step == k * step + step;
  }

  lemma {:induction false} WindowsReachEnd(start: nat, n: nat, limit: nat, overlap: nat)
    requires limit >= 1 && start < n
    ensures var w := WindowsFrom(start, n, limit, overlap);
            && w != [] && w[|w| - 1].end == n
            && (forall k | 0 <= k < |w| - 1 :: w[k].end < n && w[k].end == w[k].start + limit)
            && (forall k | 0 <= k < |w| :: start <= w[k].start < w[k].end <= n)
    decreases n - start
  {
    if start + limit < n {
      var next := Max(start + limit - overlap, start + 1);
      WindowsReachEnd(next, n, limit, overlap);
      assert WindowsFrom(start, n, limit, overlap) == [Window(start, start + limit)] + WindowsFrom(next, n, limit, overlap);
    }
  }

  ghost predicate Covered(i: int, windows: seq<Window>) {
    exists k | 0 <= k < |windows| :: windows[k].start <= i < windows[k].end
  }

  lemma {:induction false} WindowsCover(start: nat, n: nat, limit: nat, overlap: nat, i: nat)
    requires limit >= 1 && start <= i < n
    ensures Covered(i, WindowsFrom(start, n, limit, overlap))
    decreases n - start
  {
    var w := WindowsFrom(start, n, limit, overlap);
    if start + limit >= n || i < start + limit {
      assert w[0].start <= i < w[0].end;
    } else {
      var next := Max(start + limit - overlap, start + 1);
      WindowsCover(next, n, limit, overlap, i);
      var tail := WindowsFrom(next, n, limit, overlap);
      var k :| 0 <= k < |tail| && tail[k].start <= i < tail[k].end;
      assert w[k + 1] == tail[k];
    }
  }

  lemma {:induction false} WindowsStartAfter(start: int, n: int, limit: int, overlap: int)
    ensures forall k | 0 <= k < |WindowsFrom(start, n, limit, overlap)| :: start <= WindowsFrom(start, n, limit, overlap)[k].start
    decreases n - start
  {
    if start < n && Min(n, start + limit) < n {
      WindowsStartAfter(Max(Min(n, start + limit) - overlap, start + 1), n, limit, overlap);
    }
  }

  /** The windows' union is the whole text exactly when the configured overlap is not negative. */
  lemma WindowsCoverIff(n: nat, limit: nat, overlap: int)
    requires 1 <= limit < n
    ensures (forall i | 0 <= i < n :: Covered(i, WindowsFrom(0, n, limit, overlap))) <==> overlap >= 0
  {
    var w := WindowsFrom(0, n, limit, overlap);
    if overlap >= 0 {
      forall i | 0 <= i < n ensures Covered(i, w) {
        WindowsCover(0, n, limit, overlap, i);
      }
    } else {
      WindowsStartAfter(limit - overlap, n, limit, overlap);
      assert Max(limit - overlap, 1) == limit - overlap;
      var tail := WindowsFrom(limit - overlap, n, limit, overlap);
      assert w == [Window(0, limit)] + tail;
      assert forall k | 1 <= k < |w| :: w[k] == tail[k - 1];
      assert !Covered(limit, WindowsFrom(0, n, limit, overlap));
    }
  }

  // ----- Sentences -----

  predicate EndsSentence(c: char) {
    c in {'。', '！', '？', '!', '?', '；', ';'}
  }

  /** `re.split(r"(?<=[。！？!?；;])", s)`: a cut after every terminator. */
  function Pieces(s: string): (pieces: seq<string>)
    ensures pieces != []
  {
    if s == "" then [""]
    else if EndsSentence(s[0]) then [[s[0]]] + Pieces(s[1..])
    else var tail := Pieces(s[1..]); [[s[0]] + tail[0]] + tail[1..]
  }

  function StripNonEmpty(pieces: seq<string>): seq<string> {
    if pieces == [] then []
    else (if Strip(pieces[0]) == "" then [] else [Strip(pieces[0])]) + StripNonEmpty(pieces[1..])
  }

  function Sentences(text: string): seq<string> {
    StripNonEmpty(Pieces(text))
  }

  /** The cuts lose nothing. */
  lemma {:induction false} PiecesConcat(s: string)
    ensures Concat(Pieces(s)) == s
  {
    if s != "" {
      PiecesConcat(s[1..]);
      var tail := Pieces(s[1..]);
      if EndsSentence(s[0]) {
        assert Pieces(s)[1..] == tail;
      } else {
        assert Pieces(s)[1..] == tail[1..];
      }
    }
  }

  predicate NoTerminator(s: string) {
    forall j | 0 <= j < |s| :: !EndsSentence(s[j])
  }

  /** The cuts are exactly after the terminators. */
  lemma {:induction false} PiecesCutAtTerminators(s: string, i: nat)
    requires i < |Pieces(s)|
    ensures i == |Pieces(s)| - 1 ==> NoTerminator(Pieces(s)[i])
    ensures i < |Pieces(s)| - 1 ==>
              var p := Pieces(s)[i]; p != "" && EndsSentence(p[|p| - 1]) && NoTerminator(p[..|p| - 1])
  {
    if s != "" {
      var tail := Pieces(s[1..]);
      if EndsSentence(s[0]) {
        if i > 0 {
          PiecesCutAtTerminators(s[1..], i - 1);
        }
      } else {
        PiecesCutAtTerminators(s[1..], i);
        if i == 0 && |tail| > 1 {
          var p := Pieces(s)[0];
          assert p[..|p| - 1] == [s[0]] + tail[0][..|tail[0]| - 1];
        }
      }
    }
  }

  lemma {:induction false} InkOfStripNonEmpty(pieces: seq<string>)
    ensures Ink(Concat(StripNonEmpty(pieces))) == Ink(Concat(pieces))
    ensures AllSolid(StripNonEmpty(pieces))
  {
    if pieces != [] {
      var tail := StripNonEmpty(pieces[1..]);
      InkOfStripNonEmpty(pieces[1..]);
      StripTrims(pieces[0]);
      InkOfStrip(pieces[0]);
      InkAppend(pieces[0], Concat(pieces[1..]));
      InkAppend(Strip(pieces[0]), Concat(tail));
      if Strip(pieces[0]) == "" {
        assert StripNonEmpty(pieces) == tail;
      } else {
        assert StripNonEmpty(pieces)[1..] == tail;
      }
    }
  }

  lemma SentencesKeepInk(text: string)
    ensures Ink(Concat(Sentences(text))) == Ink(text)
    ensures AllSolid(Sentences(text))
  {
    PiecesConcat(text);
    InkOfStripNonEmpty(Pieces(text));
  }

  /** What a new chunk carries over from the end of the chunk before it. */
  function Carry(current: string, overlap: int): string {
    var tail := if overlap > 0 then Strip(Slice(current, -overlap, |current|)) else "";
    if tail == "" then "" else tail + "\n"
  }

  /** The chunks still to come when `current` is open and `sentences` are left. */
  function PackSentences(current: string, sentences: seq<string>, limit: int, overlap: int): seq<string>
    decreases |sentences|
  {
    if sentences == [] then (if Strip(current) == "" then [] else [Strip(current)])
    else if current != "" && |current| + |sentences[0]| + 1 > limit then
      [Strip(current)] + PackSentences(Carry(current, overlap) + sentences[0], sentences[1..], limit, overlap)
    else PackSentences(current + sentences[0], sentences[1..], limit, overlap)
  }

  /** `split_long_block(block, limit)` as a value. */
  function SplitLongBlock(block: string, limit: int, overlap: int): seq<string> {
    var text := Strip(block);
    if |text| <= limit then (if text == "" then [] else [text])
    else if |Sentences(text)| <= 1 then WindowTexts(text, WindowsFrom(0, |text|, limit, overlap))
    else PackSentences("", Sentences(text), limit, overlap)
  }

  lemma PackStep(chunks: seq<string>, current: string, sentences: seq<string>, limit: int, overlap: int)
    requires sentences != []
    ensures chunks + PackSentences(current, sentences, limit, overlap)
         == if current != "" && |current| + |sentences[0]| + 1 > limit
            then chunks + [Strip(current)]
               + PackSentences(Carry(current, overlap) + sentences[0], sentences[1..], limit, overlap)
            else chunks + PackSentences(current + sentences[0], sentences[1..], limit, overlap)
  {
  }

  method SplitBlockLoop(block: string, limit: int, overlap: int) returns (chunks: seq<string>)
    ensures chunks == SplitLongBlock(block, limit, overlap)
  {
    var text := Strip(block);
    if |text| <= limit {
      return if text != "" then [text] else [];
    }
    var sentences := Sentences(text);
    if |sentences| <= 1 {
      chunks := SlideWindows(text, limit, overlap);
    } else {
      chunks := PackSentencesLoop(sentences, limit, overlap);
    }
  }

  /** The loop that packs the sentences. */
  method PackSentencesLoop(sentences: seq<string>, limit: int, overlap: int) returns (chunks: seq<string>)
    ensures chunks == PackSentences("", sentences, limit, overlap)
  {
    chunks := [];
    var current := "";
    assert sentences[0..] == sentences;
    for i := 0 to |sentences|
      invariant chunks + PackSentences(current, sentences[i..], limit, overlap) == PackSentences("", sentences, limit, overlap)
    {
      var sentence := sentences[i];
      assert sentences[i..][1..] == sentences[i + 1..];
      PackStep(chunks, current, sentences[i..], limit, overlap);
      if current != "" && |current| + |sentence| + 1 > limit {
        chunks := chunks + [Strip(current)];
        var tail := if overlap > 0 then Strip(Slice(current, -overlap, |current|)) else "";
        assert Carry(current, overlap) + sentence == tail + (if tail != "" then "\n" else "") + sentence;
        current := tail + (if tail != "" then "\n" else "") + sentence;
      } else {
        assert current == "" ==> current + sentence == sentence;
        current := if current != "" then current + sentence else sentence;
      }
    }
    assert sentences[|sentences|..] == [];
    if Strip(current) != "" {
      chunks := chunks + [Strip(current)];
    }
  }

  // ----- What the sentence chunks are -----

  /** The sentences of each chunk, the first group joining what `open` already holds. */
  function Groups(current: string, open: seq<string>, sentences: seq<string>, limit: int, overlap: int): seq<seq<string>>
    decreases |sentences|
  {
    if sentences == [] then [open]
    else if current != "" && |current| + |sentences[0]| + 1 > limit then
      [open] + Groups(Carry(current, overlap) + sentences[0], [sentences[0]], sentences[1..], limit, overlap)
    else Groups(current + sentences[0], open + [sentences[0]], sentences[1..], limit, overlap)
  }

  lemma {:induction false} GroupsFlatten(current: string, open: seq<string>, sentences: seq<string>, limit: int, overlap: int)
    ensures Flatten(Groups(current, open, sentences, limit, overlap)) == open + sentences
    decreases |sentences|
  {
    if sentences == [] {
      FlattenCons(open, []);
      assert [open] + [] == [open];
    } else {
      var s, rest := sentences[0], sentences[1..];
      assert sentences == [s] + rest;
      Regroup(open, [s], rest);
      if current != "" && |current| + |s| + 1 > limit {
        GroupsFlatten(Carry(current, overlap) + s, [s], rest, limit, overlap);
        FlattenCons(open, Groups(Carry(current, overlap) + s, [s], rest, limit, overlap));
      } else {
        GroupsFlatten(current + s, open + [s], rest, limit, overlap);
      }
    }
  }

  lemma CarrySolid(current: string, overlap: int, sentence: string)
    requires Solid(sentence)
    ensures Solid(Carry(current, overlap) + sentence)
    ensures |Carry(current, overlap)| <= Max(overlap, 0) + 1
  {
    var cut := Slice(current, -overlap, |current|);
    StripTrims(cut);
    var whole := Carry(current, overlap) + sentence;
    assert whole[|whole| - 1] == sentence[|sentence| - 1];
  }

  lemma SpacesOutside(s: string, a: nat, b: nat)
    requires a <= b <= |s| && AllSpace(s[..a]) && AllSpace(s[b..])
    ensures forall i | 0 <= i < a || b <= i < |s| :: IsSpace(s[i])
  {
    assert forall i | 0 <= i < a :: s[..a][i] == s[i];
    assert forall i | b <= i < |s| :: s[b..][i - b] == s[i];
  }

  /** Stripping a text that ends in no space only cuts spaces off its front. */
  lemma StripOfSolidEnd(s: string) returns (a: nat)
    requires s != "" && !IsSpace(s[|s| - 1])
    ensures a < |s| && Strip(s) == s[a..] && AllSpace(s[..a]) && !IsSpace(s[a])
  {
    var b;
    a, b := StripSplits(s);
    SpacesOutside(s, a, b);
    assert a < b == |s|;
    assert s[a..b] == s[a..] && s[a..b][0] == s[a];
  }

  /** What a chunk with no space at its ends passes on: its last `overlap` characters, less the spaces they begin with. */
  lemma CarryIsEnd(current: string, overlap: int) returns (a: nat)
    requires Solid(current)
    ensures overlap <= 0 ==> Carry(current, overlap) == ""
    ensures overlap > 0 ==>
              var cut := Max(0, |current| - overlap);
              && cut <= a < |current| && Carry(current, overlap) == current[a..] + "\n"
              && AllSpace(current[cut..a]) && !IsSpace(current[a])
  {
    a := 0;
    if overlap > 0 {
      var cut := Max(0, |current| - overlap);
      var tail := current[cut..];
      assert Slice(current, -overlap, |current|) == tail;
      var l := StripOfSolidEnd(tail);
      a := cut + l;
      assert tail[l..] == current[a..] && tail[..l] == current[cut..a];
    }
  }

  /** Each chunk is what it carried in followed by its own sentences; `prefix` is what the first one carried in. */
  ghost predicate Dealt(prefix: string, chunks: seq<string>, groups: seq<seq<string>>, overlap: int) {
    && |chunks| == |groups| > 0
    && chunks[0] == prefix + Concat(groups[0])
    && forall k | 1 <= k < |chunks| :: chunks[k] == Carry(chunks[k - 1], overlap) + Concat(groups[k])
  }

  lemma DealtCons(prefix: string, open: seq<string>, chunks: seq<string>, groups: seq<seq<string>>, overlap: int)
    requires var current := prefix + Concat(open);
             Dealt(Carry(current, overlap), chunks, groups, overlap)
    ensures Dealt(prefix, [prefix + Concat(open)] + chunks, [open] + groups, overlap)
  {
    var chunks' := [prefix + Concat(open)] + chunks;
    forall k | 1 <= k < |chunks'| ensures chunks'[k] == Carry(chunks'[k - 1], overlap) + Concat(([open] + groups)[k]) {
      assert chunks'[k] == chunks[k - 1];
      assert k > 1 ==> chunks'[k - 1] == chunks[k - 2];
    }
  }

  lemma AppendSolid(current: string, sentence: string)
    requires Solid(sentence) && (current == "" || Solid(current))
    ensures Solid(current + sentence)
  {
    var whole := current + sentence;
    assert whole[|whole| - 1] == sentence[|sentence| - 1];
  }

  lemma {:induction false} ChunksAreGroups(prefix: string, open: seq<string>, sentences: seq<string>, limit: int, overlap: int)
    requires AllSolid(sentences)
    requires var current := prefix + Concat(open); Solid(current) || (current == "" && sentences != [])
    ensures var current := prefix + Concat(open);
            Dealt(prefix, PackSentences(current, sentences, limit, overlap), Groups(current, open, sentences, limit, overlap), overlap)
    decreases |sentences|
  {
    var current := prefix + Concat(open);
    if sentences == [] {
      StripOfTrimmed(current);
    } else if current != "" && |current| + |sentences[0]| + 1 > limit {
      StripOfTrimmed(current);
      CarrySolid(current, overlap, sentences[0]);
      ConcatSnoc([], sentences[0]);
      assert [] + [sentences[0]] == [sentences[0]] && Concat([sentences[0]]) == sentences[0];
      ChunksAreGroups(Carry(current, overlap), [sentences[0]], sentences[1..], limit, overlap);
      DealtCons(prefix, open,
                PackSentences(Carry(current, overlap) + sentences[0], sentences[1..], limit, overlap),
                Groups(Carry(current, overlap) + sentences[0], [sentences[0]], sentences[1..], limit, overlap), overlap);
    } else {
      ConcatSnoc(open, sentences[0]);
      assert prefix + Concat(open + [sentences[0]]) == current + sentences[0];
      AppendSolid(current, sentences[0]);
      ChunksAreGroups(prefix, open + [sentences[0]], sentences[1..], limit, overlap);
    }
  }

  /** No chunk is without a sentence of its own, and none is closed while the next sentence would still fit. */
  ghost predicate Tight(chunks: seq<string>, groups: seq<seq<string>>, limit: int) {
    && |chunks| == |groups|
    && (forall k | 0 <= k < |groups| :: groups[k] != [])
    && forall k | 0 <= k < |chunks| - 1 :: |chunks[k]| + |groups[k + 1][0]| + 1 > limit
  }

  lemma TightCons(chunk: string, open: seq<string>, chunks: seq<string>, groups: seq<seq<string>>, limit: int)
    requires open != [] && chunks != [] && Tight(chunks, groups, limit) && |chunk| + |groups[0][0]| + 1 > limit
    ensures Tight([chunk] + chunks, [open] + groups, limit)
  {
    var chunks', groups' := [chunk] + chunks, [open] + groups;
    forall k | 0 <= k < |chunks'| - 1 ensures |chunks'[k]| + |groups'[k + 1][0]| + 1 > limit {
      assert groups'[k + 1] == groups[k];
      assert k > 0 ==> chunks'[k] == chunks[k - 1];
    }
  }

  lemma {:induction false} ChunksAreTight(current: string, open: seq<string>, sentences: seq<string>, limit: int, overlap: int)
    requires AllSolid(sentences)
    requires (Solid(current) && open != []) || (current == "" && open == [] && sentences != [])
    ensures var chunks, groups := PackSentences(current, sentences, limit, overlap), Groups(current, open, sentences, limit, overlap);
            && Tight(chunks, groups, limit) && chunks != [] && open <= groups[0]
    decreases |sentences|
  {
    if sentences == [] {
      StripOfTrimmed(current);
    } else if current != "" && |current| + |sentences[0]| + 1 > limit {
      StripOfTrimmed(current);
      var carried := Carry(current, overlap) + sentences[0];
      CarrySolid(current, overlap, sentences[0]);
      ChunksAreTight(carried, [sentences[0]], sentences[1..], limit, overlap);
      TightCons(current, open, PackSentences(carried, sentences[1..], limit, overlap),
                Groups(carried, [sentences[0]], sentences[1..], limit, overlap), limit);
    } else {
      AppendSolid(current, sentences[0]);
      ChunksAreTight(current + sentences[0], open + [sentences[0]], sentences[1..], limit, overlap);
    }
  }

  /**
   The sentence theorem: the sentences are dealt out to the chunks in order, none is cut, and a chunk
   is the end of the chunk before it (at most `overlap` characters and a line break) followed by its
   own sentences, of which it has at least one; it is closed only when the next would not fit.
   */
  lemma SentenceChunksExact(sentences: seq<string>, limit: int, overlap: int) returns (groups: seq<seq<string>>)
    requires AllSolid(sentences) && sentences != []
    ensures var chunks := PackSentences("", sentences, limit, overlap);
            && |groups| == |chunks|
            && Flatten(groups) == sentences
            && Dealt("", chunks, groups, overlap)
            && Tight(chunks, groups, limit)
  {
    groups := Groups("", [], sentences, limit, overlap);
    GroupsFlatten("", [], sentences, limit, overlap);
    ChunksAreGroups("", [], sentences, limit, overlap);
    ChunksAreTight("", [], sentences, limit, overlap);
  }

  predicate AllWithin(chunks: seq<string>, bound: int) {
    forall k | 0 <= k < |chunks| :: |chunks[k]| <= bound
  }

  /** A chunk outgrows `limit` only by a single sentence and its carry; `longest` bounds the sentences. */
  lemma {:induction false} SentenceChunksBounded(current: string, sentences: seq<string>, limit: int, overlap: int, longest: nat, bound: int)
    requires AllSolid(sentences) && AllWithin(sentences, longest)
    requires bound == Max(limit, Max(overlap, 0) + 1 + longest)
    requires |current| <= bound
    ensures AllWithin(PackSentences(current, sentences, limit, overlap), bound)
    decreases |sentences|
  {
    StripTrims(current);
    if sentences == [] {
    } else if current != "" && |current| + |sentences[0]| + 1 > limit {
      CarrySolid(current, overlap, sentences[0]);
      SentenceChunksBounded(Carry(current, overlap) + sentences[0], sentences[1..], limit, overlap, longest, bound);
    } else {
      SentenceChunksBounded(current + sentences[0], sentences[1..], limit, overlap, longest, bound);
    }
  }

  predicate WindowsFit(windows: seq<Window>, n: int, limit: int) {
    forall k | 0 <= k < |windows| :: 0 <= windows[k].start <= windows[k].end <= n && windows[k].end - windows[k].start <= limit
  }

  lemma {:induction false} WindowTextsBounded(text: string, windows: seq<Window>, limit: int)
    requires WindowsFit(windows, |text|, limit)
    ensures AllWithin(WindowTexts(text, windows), limit)
  {
    if windows != [] {
      StripTrims(Slice(text, windows[0].start, windows[0].end));
      WindowTextsBounded(text, windows[1..], limit);
    }
  }

  lemma {:induction false} WindowsWithin(start: nat, n: nat, limit: nat, overlap: int)
    ensures WindowsFit(WindowsFrom(start, n, limit, overlap), n, limit)
    decreases n - start
  {
    if start < n && start + limit < n {
      var next := Max(start + limit - overlap, start + 1);
      WindowsWithin(next, n, limit, overlap);
      assert WindowsFrom(start, n, limit, overlap) == [Window(start, start + limit)] + WindowsFrom(next, n, limit, overlap);
    }
  }

  /** No chunk of a split block exceeds the limit by more than one sentence and its carry. */
  lemma SplitBounded(block: string, limit: nat, overlap: int, longest: nat)
    requires AllWithin(Sentences(Strip(block)), longest)
    ensures AllWithin(SplitLongBlock(block, limit, overlap), Max(limit, Max(overlap, 0) + 1 + longest))
  {
    var t := Strip(block);
    SentencesKeepInk(t);
    if |t| > limit {
      if |Sentences(t)| <= 1 {
        WindowsWithin(0, |t|, limit, overlap);
        WindowTextsBounded(t, WindowsFrom(0, |t|, limit, overlap), limit);
      } else {
        SentenceChunksBounded("", Sentences(t), limit, overlap, longest, Max(limit, Max(overlap, 0) + 1 + longest));
      }
    }
  }

  // ----- The chunks of a block hold the whole block -----

  lemma {:induction false} PackKeepsInk(current: string, sentences: seq<string>, limit: int, overlap: int)
    ensures Subsequence(Ink(current) + Ink(Concat(sentences)), Ink(Concat(PackSentences(current, sentences, limit, overlap))))
    decreases |sentences|
  {
    InkOfStrip(current);
    if sentences == [] {
      assert Ink(current) + "" == Ink(current);
      InkOfCons(Strip(current), []);
      assert [Strip(current)] + [] == [Strip(current)] && Ink(Strip(current)) + "" == Ink(Strip(current));
      SubsequenceOfSelf(Ink(current));
    } else {
      var s, rest := sentences[0], sentences[1..];
      InkAppend(s, Concat(rest));
      if current != "" && |current| + |s| + 1 > limit {
        var carried := Carry(current, overlap) + s;
        var more := PackSentences(carried, rest, limit, overlap);
        PackKeepsInk(carried, rest, limit, overlap);
        InkAppend(Carry(current, overlap), s);
        InkOfCons(Strip(current), more);
        CarryAddsInk(Ink(current), Ink(Carry(current, overlap)), Ink(s), Ink(Concat(rest)), Ink(Concat(more)));
      } else {
        PackKeepsInk(current + s, rest, limit, overlap);
        InkAppend(current, s);
        Regroup(Ink(current), Ink(s), Ink(Concat(rest)));
      }
    }
  }

  lemma CarryAddsInk(current: string, carry: string, s: string, rest: string, more: string)
    requires Subsequence(carry + s + rest, more)
    ensures Subsequence(current + (s + rest), current + more)
  {
    Regroup(carry, s, rest);
    SubsequenceOfSelf(s + rest);
    SubsequencePrefixed(carry, s + rest, s + rest);
    SubsequenceTransitive(s + rest, carry + (s + rest), more);
    SubsequenceOfSelf(current);
    SubsequenceAppend(current, current, s + rest, more);
  }

  lemma InkOfWindow(text: string, w: Window)
    requires 0 <= w.start <= w.end <= |text|
    ensures Ink(Concat(WindowText(text, w))) == Ink(text[w.start..w.end])
  {
    assert Slice(text, w.start, w.end) == text[w.start..w.end];
    InkOfStrip(text[w.start..w.end]);
    InkOfCons(Strip(text[w.start..w.end]), []);
    assert [Strip(text[w.start..w.end])] + [] == [Strip(text[w.start..w.end])];
  }

  lemma CutInk(text: string, i: nat, j: nat)
    requires i <= j <= |text|
    ensures Ink(text[i..]) == Ink(text[i..j]) + Ink(text[j..])
  {
    assert text[i..] == text[i..j] + text[j..];
    InkAppend(text[i..j], text[j..]);
  }

  lemma WindowTextsCons(text: string, w: Window, rest: seq<Window>)
    ensures WindowTexts(text, [w] + rest) == WindowText(text, w) + WindowTexts(text, rest)
  {
    assert ([w] + rest)[1..] == rest;
  }

  /** One window, and the windows after it, which begin no later than where it ends. */
  lemma WindowStepKeepsInk(text: string, w: Window, next: nat, rest: seq<Window>)
    requires 0 <= w.start <= w.end <= |text| && next <= w.end
    requires Subsequence(Ink(text[next..]), Ink(Concat(WindowTexts(text, rest))))
    ensures Subsequence(Ink(text[w.start..]), Ink(Concat(WindowTexts(text, [w] + rest))))
  {
    var more := Ink(Concat(WindowTexts(text, rest)));
    InkOfWindow(text, w);
    RestInNext(text, next, w.end, more);
    CutInk(text, w.start, w.end);
    WindowTextsCons(text, w, rest);
    InkOfConcat(WindowText(text, w), WindowTexts(text, rest));
    SubsequenceOfSelf(Ink(text[w.start..w.end]));
    SubsequenceAppend(Ink(text[w.start..w.end]), Ink(text[w.start..w.end]), Ink(text[w.end..]), more);
  }

  lemma {:induction false} WindowsKeepInk(text: string, start: nat, limit: nat, overlap: nat)
    requires limit >= 1 && start <= |text|
    ensures Subsequence(Ink(text[start..]), Ink(Concat(WindowTexts(text, WindowsFrom(start, |text|, limit, overlap)))))
    decreases |text| - start
  {
    if start < |text| {
      var windows := WindowsFrom(start, |text|, limit, overlap);
      var end := Min(|text|, start + limit);
      if end >= |text| {
        assert windows == [Window(start, end)] + [] && text[end..] == "";
        WindowStepKeepsInk(text, Window(start, end), end, []);
      } else {
        var next := Max(end - overlap, start + 1);
        var rest := WindowsFrom(next, |text|, limit, overlap);
        assert windows == [Window(start, end)] + rest;
        WindowsKeepInk(text, next, limit, overlap);
        WindowStepKeepsInk(text, Window(start, end), next, rest);
      }
    }
  }

  lemma RestInNext(text: string, next: nat, end: nat, more: string)
    requires next <= end <= |text| && Subsequence(Ink(text[next..]), more)
    ensures Subsequence(Ink(text[end..]), more)
  {
    CutInk(text, next, end);
    SubsequenceOfSelf(Ink(text[end..]));
    SubsequencePrefixed(Ink(text[next..end]), Ink(text[end..]), Ink(text[end..]));
    SubsequenceTransitive(Ink(text[end..]), Ink(text[next..]), more);
  }

  /** Every character of a block that is not a space is in its chunks, in order. */
  lemma SplitKeepsInk(block: string, limit: nat, overlap: nat)
    requires limit >= 1
    ensures Subsequence(Ink(block), Ink(Concat(SplitLongBlock(block, limit, overlap))))
  {
    var text := Strip(block);
    InkOfStrip(block);
    if |text| <= limit {
      InkOfCons(text, []);
      assert [text] + [] == [text] && Ink(text) + "" == Ink(text);
      SubsequenceOfSelf(Ink(text));
    } else if |Sentences(text)| <= 1 {
      WindowsKeepInk(text, 0, limit, overlap);
      assert text[0..] == text;
    } else {
      SentencesKeepInk(text);
      PackKeepsInk("", Sentences(text), limit, overlap);
      assert Ink("") + Ink(Concat(Sentences(text))) == Ink(Concat(Sentences(text)));
    }
  }

  // ----- Which way a block is split, and into what -----

  function NotBlank(): string -> bool {
    s => !AllSpace(s)
  }

  /** `kept` are the parts that are not blank, stripped and in order; `index` says which parts they are. */
  ghost predicate Kept(parts: seq<string>, kept: seq<string>, index: seq<nat>) {
    Chosen(parts, index, NotBlank()) && |kept| == |index| && forall k | 0 <= k < |kept| :: kept[k] == Strip(parts[index[k]])
  }

  lemma {:induction false} StripNonEmptySnoc(parts: seq<string>, part: string)
    ensures StripNonEmpty(parts + [part]) == StripNonEmpty(parts) + (if Strip(part) == "" then [] else [Strip(part)])
  {
    if parts == [] {
      assert [] + [part] == [part] && [part][1..] == [];
    } else {
      assert (parts + [part])[1..] == parts[1..] + [part];
      StripNonEmptySnoc(parts[1..], part);
    }
  }

  /** Dropping blank parts and stripping the others keeps exactly the others. */
  lemma {:induction false} StripNonEmptyKeeps(parts: seq<string>) returns (index: seq<nat>)
    ensures Kept(parts, StripNonEmpty(parts), index)
  {
    index := [];
    if parts != [] {
      var n := |parts| - 1;
      var front, last := parts[..n], parts[n];
      assert parts == front + [last];
      index := StripNonEmptyKeeps(front);
      KeptSnoc(front, StripNonEmpty(front), index, last);
      StripNonEmptySnoc(front, last);
      StripTrims(last);
      index := if AllSpace(last) then index else index + [n];
    }
  }

  lemma KeptSnoc(parts: seq<string>, kept: seq<string>, index: seq<nat>, part: string)
    requires Kept(parts, kept, index)
    ensures AllSpace(part) ==> Kept(parts + [part], kept, index)
    ensures !AllSpace(part) ==> Kept(parts + [part], kept + [Strip(part)], index + [|parts|])
  {
    ChosenSnoc(parts, index, part, NotBlank());
    assert NotBlank()(part) == !AllSpace(part);
    assert forall k | 0 <= k < |kept| :: index[k] < |parts|;
  }

  /** The text of each window, before it is stripped. */
  function WindowParts(text: string, windows: seq<Window>): (parts: seq<string>)
    ensures |parts| == |windows|
    ensures forall k | 0 <= k < |parts| :: parts[k] == Slice(text, windows[k].start, windows[k].end)
  {
    seq(|windows|, k requires 0 <= k < |windows| => Slice(text, windows[k].start, windows[k].end))
  }

  lemma {:induction false} WindowTextsAreStripped(text: string, windows: seq<Window>)
    ensures WindowTexts(text, windows) == StripNonEmpty(WindowParts(text, windows))
  {
    if windows != [] {
      WindowTextsAreStripped(text, windows[1..]);
      assert WindowParts(text, windows)[1..] == WindowParts(text, windows[1..]);
      WindowTextsCons(text, windows[0], windows[1..]);
      assert windows == [windows[0]] + windows[1..];
    }
  }

  /** Two different parts are not blank. */
  ghost predicate TwoSolid(parts: seq<string>) {
    exists i, j :: 0 <= i < j < |parts| && !AllSpace(parts[i]) && !AllSpace(parts[j])
  }

  lemma TwoKeptIff(parts: seq<string>, kept: seq<string>, index: seq<nat>)
    requires Kept(parts, kept, index)
    ensures |kept| >= 2 <==> TwoSolid(parts)
  {
    if |kept| >= 2 {
      assert !AllSpace(parts[index[0]]) && !AllSpace(parts[index[1]]);
    }
    if i, j :| 0 <= i < j < |parts| && !AllSpace(parts[i]) && !AllSpace(parts[j]) {
      assert i in index && j in index;
    }
  }

  /** Groups of sentences the chunks of a block are made of. */
  ghost predicate MadeOfSentences(chunks: seq<string>, groups: seq<seq<string>>, pieces: seq<string>, index: seq<nat>, limit: int, overlap: int) {
    Kept(pieces, Flatten(groups), index) && Dealt("", chunks, groups, overlap) && Tight(chunks, groups, limit)
  }

  /**
   The splitting theorem. A block within the limit is its own chunk, stripped, or none when it is blank.
   A longer one of which two pieces or more are not blank is split by sentence: the pieces that are not
   blank, stripped, are dealt out to its chunks. Any other is cut by sliding window: its chunks are the
   window texts that are not blank, stripped.
   */
  lemma SplitExact(block: string, limit: int, overlap: int) returns (groups: seq<seq<string>>, index: seq<nat>)
    ensures var text, chunks := Strip(block), SplitLongBlock(block, limit, overlap);
            if |text| <= limit then chunks == if AllSpace(block) then [] else [text]
            else if TwoSolid(Pieces(text)) then MadeOfSentences(chunks, groups, Pieces(text), index, limit, overlap)
            else Kept(WindowParts(text, WindowsFrom(0, |text|, limit, overlap)), chunks, index)
  {
    var text := Strip(block);
    StripTrims(block);
    groups := [];
    index := StripNonEmptyKeeps(Pieces(text));
    TwoKeptIff(Pieces(text), Sentences(text), index);
    if |text| > limit {
      if TwoSolid(Pieces(text)) {
        SentencesKeepInk(text);
        groups := SentenceChunksExact(Sentences(text), limit, overlap);
      } else {
        var windows := WindowsFrom(0, |text|, limit, overlap);
        WindowTextsAreStripped(text, windows);
        index := StripNonEmptyKeeps(WindowParts(text, windows));
      }
    }
  }
}
