/** app/campusApi/service/internal/biz/campus_moments.go: poster text cleaned up and wrapped with an ellipsis. */
module PosterWrap {
  import opened GoStrings
  import P = PyStrings

  function WordLength(s: string): (k: nat)
    ensures k <= |s| && forall i | 0 <= i < k :: !IsSpace(s[i])
    ensures k < |s| ==> IsSpace(s[k])
  {
    if s == "" || IsSpace(s[0]) then 0 else 1 + WordLength(s[1..])
  }

  /** `strings.Fields` */
  function Fields(s: string): seq<string>
    decreases |s|
  {
    if s == "" then []
    else if IsSpace(s[0]) then Fields(s[1..])
    else [s[..WordLength(s)]] + Fields(s[WordLength(s)..])
  }

  /** `strings.ReplaceAll` of one character by one character. */
  function Replace(s: string, from: char, to: char): string {
    seq(|s|, i requires 0 <= i < |s| => if s[i] == from then to else s[i])
  }

  function CleanPosterText(value: string): string {
    P.Join(Fields(Replace(Replace(value, '\n', ' '), '\r', ' ')), " ")
  }

  predicate IsWord(w: string) {
    w != "" && forall i | 0 <= i < |w| :: !IsSpace(w[i])
  }

  lemma {:induction false} WordLengthIs(s: string, k: nat)
    requires k <= |s| && (forall i | 0 <= i < k :: !IsSpace(s[i])) && (k < |s| ==> IsSpace(s[k]))
    ensures WordLength(s) == k
  {
    if k > 0 {
      WordLengthIs(s[1..], k - 1);
    }
  }

  lemma {:induction false} FieldsAreWords(s: string)
    ensures forall i | 0 <= i < |Fields(s)| :: IsWord(Fields(s)[i])
    decreases |s|
  {
    if s == "" {
    } else if IsSpace(s[0]) {
      FieldsAreWords(s[1..]);
    } else {
      FieldsAreWords(s[WordLength(s)..]);
    }
  }

  lemma {:induction false} FieldsOfJoin(words: seq<string>)
    requires forall i | 0 <= i < |words| :: IsWord(words[i])
    ensures Fields(P.Join(words, " ")) == words
  {
    if |words| == 1 {
      var w := words[0];
      WordLengthIs(w, |w|);
      assert w[..|w|] == w && w[|w|..] == "";
      assert Fields("") == [];
    } else if |words| > 1 {
      var tail := P.Join(words[1..], " ");
      var s := P.Join(words, " ");
      assert s == words[0] + " " + tail;
      WordLengthIs(s, |words[0]|);
      assert s[..|words[0]|] == words[0] && s[|words[0]|..] == " " + tail;
      assert (" " + tail)[1..] == tail;
      FieldsOfJoin(words[1..]);
    }
  }

  lemma {:induction false} FieldsOfReplace(s: string, from: char)
    requires IsSpace(from)
    ensures Fields(Replace(s, from, ' ')) == Fields(s)
    decreases |s|
  {
    var t := Replace(s, from, ' ');
    if s == "" {
    } else if IsSpace(s[0]) {
      assert t[1..] == Replace(s[1..], from, ' ');
      FieldsOfReplace(s[1..], from);
    } else {
      var k := WordLength(s);
      WordLengthIs(t, k);
      assert t[..k] == s[..k] && t[k..] == Replace(s[k..], from, ' ');
      FieldsOfReplace(s[k..], from);
    }
  }

  /** Cleaning keeps exactly the words of the text, and cleaning again changes nothing. */
  lemma CleanKeepsWords(value: string)
    ensures Fields(CleanPosterText(value)) == Fields(value)
    ensures CleanPosterText(CleanPosterText(value)) == CleanPosterText(value)
  {
    FieldsOfReplace(value, '\n');
    FieldsOfReplace(Replace(value, '\n', ' '), '\r');
    FieldsAreWords(value);
    FieldsOfJoin(Fields(value));
    var c := CleanPosterText(value);
    FieldsOfReplace(c, '\n');
    FieldsOfReplace(Replace(c, '\n', ' '), '\r');
  }

  /** Spaces in `s` are single, plain and between other characters. */
  predicate Tight(s: string) {
    forall i | 0 <= i < |s| && IsSpace(s[i]) :: s[i] == ' ' && 0 < i < |s| - 1 && !IsSpace(s[i - 1]) && !IsSpace(s[i + 1])
  }

  lemma {:induction false} JoinedIsTight(words: seq<string>)
    requires forall i | 0 <= i < |words| :: IsWord(words[i])
    ensures Tight(P.Join(words, " "))
    ensures words != [] ==> P.Join(words, " ") != "" && !IsSpace(P.Join(words, " ")[0])
  {
    if |words| > 1 {
      var w, tail := words[0], P.Join(words[1..], " ");
      JoinedIsTight(words[1..]);
      SpacedIsTight(w, tail);
    }
  }

  lemma SpacedIsTight(w: string, tail: string)
    requires IsWord(w) && Tight(tail) && tail != "" && !IsSpace(tail[0])
    ensures Tight(w + " " + tail)
  {
    var s, n := w + " " + tail, |w| + 1;
    assert forall i | 0 <= i < |w| :: s[i] == w[i];
    assert forall i | 0 <= i < |tail| :: s[n + i] == tail[i];
    forall i | 0 <= i < |s| && IsSpace(s[i]) ensures s[i] == ' ' && 0 < i < |s| - 1 && !IsSpace(s[i - 1]) && !IsSpace(s[i + 1]) {
      if i >= n {
        assert s[i] == tail[i - n] && s[i - 1] == tail[i - n - 1] && s[i + 1] == tail[i - n + 1];
      } else {
        assert i == |w|;
      }
    }
  }

  /** Between the words a clean text has single spaces, and no other space anywhere. */
  lemma CleanIsTight(value: string)
    ensures Tight(CleanPosterText(value))
  {
    var s := Replace(Replace(value, '\n', ' '), '\r', ' ');
    FieldsAreWords(s);
    JoinedIsTight(Fields(s));
  }

  predicate Blank(s: string) {
    forall i | 0 <= i < |s| :: IsSpace(s[i])
  }

  /** The words with the gaps around them. */
  function Interleave(gaps: seq<string>, words: seq<string>): string
    requires |gaps| == |words| + 1
    decreases |words|
  {
    if words == [] then gaps[0] else gaps[0] + words[0] + Interleave(gaps[1..], words[1..])
  }

  /** What may stand around and between words: spaces, and at least one between two words. */
  predicate AreGaps(gaps: seq<string>) {
    gaps != [] && (forall i | 0 <= i < |gaps| :: Blank(gaps[i])) && (forall i | 0 < i < |gaps| - 1 :: gaps[i] != "")
  }

  /** A text is its words and the gaps around them: nothing is lost, and words are cut at spaces and nowhere else. */
  lemma {:induction false} FieldsSplit(s: string) returns (gaps: seq<string>)
    ensures |gaps| == |Fields(s)| + 1 && AreGaps(gaps) && Interleave(gaps, Fields(s)) == s
    ensures s != "" && IsSpace(s[0]) ==> gaps[0] != ""
    decreases |s|
  {
    if s == "" {
      gaps := [""];
    } else if IsSpace(s[0]) {
      var rest := FieldsSplit(s[1..]);
      gaps := Widen([s[0]], rest);
      WidenGap([s[0]], rest, Fields(s[1..]));
      assert s == [s[0]] + s[1..];
    } else {
      var k := WordLength(s);
      var rest := FieldsSplit(s[k..]);
      gaps := [""] + rest;
      WordBeforeGaps(s[..k], rest, Fields(s[k..]));
      assert s == s[..k] + s[k..];
    }
  }

  /** The gaps, the first one longer by `x`. */
  function Widen(x: string, gaps: seq<string>): seq<string>
    requires gaps != []
  {
    [x + gaps[0]] + gaps[1..]
  }

  lemma WidenGap(x: string, gaps: seq<string>, words: seq<string>)
    requires |gaps| == |words| + 1 && AreGaps(gaps) && Blank(x)
    ensures Interleave(Widen(x, gaps), words) == x + Interleave(gaps, words)
    ensures AreGaps(Widen(x, gaps))
  {
    var wide := Widen(x, gaps);
    assert wide[1..] == gaps[1..];
    if words != [] {
      assert x + gaps[0] + words[0] + Interleave(gaps[1..], words[1..]) == x + (gaps[0] + words[0] + Interleave(gaps[1..], words[1..]));
    }
    assert Blank(wide[0]);
  }

  lemma WordBeforeGaps(word: string, gaps: seq<string>, words: seq<string>)
    requires |gaps| == |words| + 1 && AreGaps(gaps) && (words != [] ==> gaps[0] != "")
    ensures Interleave([""] + gaps, [word] + words) == word + Interleave(gaps, words)
    ensures AreGaps([""] + gaps)
  {
    assert ([""] + gaps)[1..] == gaps && ([word] + words)[1..] == words;
    assert "" + word == word;
  }

  // ----- Wrapping -----

  /** The poster face and box: `measure` is the drawn width of a text, rounded up. */
  datatype Box = Box(maxWidth: int, maxLines: int, measure: string -> int)

  predicate FitsOrSingle(line: string, box: Box) {
    |line| >= 1 && (box.measure(line) <= box.maxWidth || |line| == 1)
  }

  /** A line grown one character at a time: it fitted each time after the first character. */
  predicate Grown(line: string, box: Box) {
    |line| >= 1 && forall k | 2 <= k <= |line| :: box.measure(line[..k]) <= box.maxWidth
  }

  lemma GrownFits(line: string, box: Box)
    requires Grown(line, box)
    ensures FitsOrSingle(line, box)
  {
    assert line[..|line|] == line;
  }

  /** A line break is needed: the next character does not fit on the line. */
  predicate Full(line: string, next: char, box: Box) {
    box.measure(line + [next]) > box.maxWidth
  }

  /**
   A greedy layout of `text`: `lines` in order, followed by the text `lost` for want of lines, at most
   `room` of them. Each line is grown while it fits and broken only where the next character does not.
   */
  ghost predicate LayoutIn(lines: seq<string>, lost: string, text: string, box: Box, room: int) {
    && P.Concat(lines) + lost == text
    && 1 <= |lines| <= room
    && (forall i | 0 <= i < |lines| :: Grown(lines[i], box))
    && (forall i | 0 <= i < |lines| - 1 :: Full(lines[i], lines[i + 1][0], box))
    && (lost != "" ==> |lines| == room && Full(lines[|lines| - 1], lost[0], box))
  }

  ghost predicate Layout(lines: seq<string>, lost: string, text: string, box: Box) {
    LayoutIn(lines, lost, text, box, box.maxLines)
  }

  const DOTS := "..."

  /** The last line made to end in dots: characters are dropped until it fits or one is left. */
  function Shorten(last: string, box: Box): (r: string)
    requires last != ""
    ensures r != "" && r <= last
    ensures box.measure(r + DOTS) <= box.maxWidth || |r| == 1
    ensures forall k | |r| < k <= |last| :: box.measure(last[..k] + DOTS) > box.maxWidth
    decreases |last|
  {
    if box.measure(last + DOTS) > box.maxWidth && |last| > 1 then
      var r := Shorten(last[..|last| - 1], box);
      assert forall k | |r| < k < |last| :: last[..|last| - 1][..k] == last[..k];
      assert last[..|last|] == last;
      r
    else last
  }

  /** What is drawn of a layout: the dots appear when more than one character is lost. */
  function Drawn(lines: seq<string>, lost: string, box: Box): seq<string>
    requires lines != [] && lines[|lines| - 1] != ""
  {
    if |lost| <= 1 then lines else lines[|lines| - 1 := Shorten(lines[|lines| - 1], box) + DOTS]
  }

  method ShortenLoop(line: string, box: Box) returns (last: string)
    requires line != ""
    ensures last == Shorten(line, box)
  {
    last := line;
    while box.measure(last + DOTS) > box.maxWidth && |last| > 1
      invariant last != "" && Shorten(last, box) == Shorten(line, box)
      decreases |last|
    {
      last := last[..|last| - 1];
    }
  }

  /** Lines broken off so far, and the line begun since. */
  ghost predicate Lines(lines: seq<string>, current: string, box: Box) {
    && (forall i | 0 <= i < |lines| :: Grown(lines[i], box))
    && (forall i | 0 <= i < |lines| - 1 :: Full(lines[i], lines[i + 1][0], box))
    && (current != "" ==> Grown(current, box))
    && (lines != [] ==> current != "" && Full(lines[|lines| - 1], current[0], box))
  }

  /** What the loop keeps: the lines, the line begun and the text left make up `clean`. */
  ghost predicate Progress(lines: seq<string>, current: string, text: string, clean: string, box: Box) {
    && Lines(lines, current, box)
    && P.Concat(lines) + current + text == clean
    && (current == "" ==> text == clean)
  }

  lemma BreakLine(lines: seq<string>, current: string, text: string, clean: string, box: Box)
    requires Progress(lines, current, text, clean, box) && text != "" && current != "" && Full(current, text[0], box)
    ensures Progress(lines + [current], [text[0]], text[1..], clean, box)
  {
    P.ConcatSnoc(lines, current);
    assert P.Concat(lines) + current + text == P.Concat(lines) + current + [text[0]] + text[1..];
  }

  lemma GrowLine(lines: seq<string>, current: string, text: string, clean: string, box: Box)
    requires Progress(lines, current, text, clean, box) && text != "" && (current == "" || !Full(current, text[0], box))
    ensures Progress(lines, current + [text[0]], text[1..], clean, box)
  {
    var next := current + [text[0]];
    assert forall k | 2 <= k <= |current| :: next[..k] == current[..k];
    assert next[..|next|] == next;
    assert P.Concat(lines) + current + text == P.Concat(lines) + next + text[1..];
  }

  /** The line begun last is added when there is room for it; all the text is then laid out. */
  lemma LastLineAdded(lines: seq<string>, current: string, text: string, box: Box)
    requires Progress(lines, current, "", text, box) && current != "" && |lines| < box.maxLines
    ensures Layout(lines + [current], "", text, box)
  {
    P.ConcatSnoc(lines, current);
    assert P.Concat(lines) + current + "" == P.Concat(lines) + current;
    var all := lines + [current];
    assert P.Concat(all) + "" == text;
    forall i | 0 <= i < |all| - 1 ensures Full(all[i], all[i + 1][0], box) {
      assert i < |lines| - 1 ==> all[i + 1] == lines[i + 1];
    }
  }

  /** Otherwise it is lost, with everything after it. */
  lemma LastLineLost(lines: seq<string>, current: string, more: string, text: string, box: Box)
    requires Progress(lines, current, more, text, box) && current != ""
    requires |lines| == box.maxLines > 0
    ensures Layout(lines, current + more, text, box)
  {
    assert P.Concat(lines) + current + more == P.Concat(lines) + (current + more);
    assert (current + more)[0] == current[0];
  }

  method WrapPosterText(value: string, box: Box) returns (lines: seq<string>, ghost laid: seq<string>, ghost lost: string)
    ensures CleanPosterText(value) == "" || box.maxLines <= 0 ==> lines == []
    ensures CleanPosterText(value) != "" && box.maxLines > 0 ==>
              Layout(laid, lost, CleanPosterText(value), box) && lines == Drawn(laid, lost, box)
  {
    var text := CleanPosterText(value);
    ghost var clean := text;
    laid, lost := [], "";
    if text == "" || box.maxLines <= 0 {
      return [], [], "";
    }
    lines := [];
    var current := "";
    while |text| > 0
      invariant Progress(lines, current, text, clean, box) && |lines| < box.maxLines
      decreases |text|
    {
      var r := text[0];
      ghost var before := text;
      text := text[1..];
      var next := current + [r];
      if current != "" && box.measure(next) > box.maxWidth {
        BreakLine(lines, current, before, clean, box);
        lines := lines + [current];
        current := [r];
        if |lines| >= box.maxLines {
          break;
        }
        continue;
      }
      GrowLine(lines, current, before, clean, box);
      current := next;
    }
    if |lines| < box.maxLines {
      LastLineAdded(lines, current, clean, box);
      laid := lines + [current];
    } else {
      LastLineLost(lines, current, text, clean, box);
      laid, lost := lines, current + text;
    }
    if current != "" && |lines| < box.maxLines {
      lines := lines + [current];
    }
    if |lines| == box.maxLines && text != "" {
      var last := ShortenLoop(lines[|lines| - 1], box);
      lines := lines[|lines| - 1 := last + DOTS];
    }
  }

  // ----- What is promised of the lines drawn -----

  lemma {:induction false} ConcatLast(lines: seq<string>)
    requires lines != []
    ensures P.Concat(lines) == P.Concat(lines[..|lines| - 1]) + lines[|lines| - 1]
  {
    assert lines == lines[..|lines| - 1] + [lines[|lines| - 1]];
    P.ConcatSnoc(lines[..|lines| - 1], lines[|lines| - 1]);
  }

  predicate FitsWithDots(line: string, shown: string, box: Box) {
    line == shown + "..." && shown != "" && (box.measure(line) <= box.maxWidth || |shown| == 1)
  }

  /**
   What is drawn, for any measuring function: at most `maxLines` lines; either no dots are drawn, every
   line fits or is a single character, and the lines are the text but for at most its last character;
   or the last line is some of its characters and the dots, which fits or keeps one character, and the
   lines without the dots begin the text.
   */
  lemma DrawnPromises(laid: seq<string>, lost: string, text: string, box: Box)
    requires Layout(laid, lost, text, box)
    ensures var lines := Drawn(laid, lost, box);
            var n := |lines| - 1;
            && |lines| <= box.maxLines
            && (forall i | 0 <= i < n :: FitsOrSingle(lines[i], box))
            && (|lost| <= 1 ==> FitsOrSingle(lines[n], box) && P.Concat(lines) == text[..|text| - |lost|])
            && (|lost| > 1 ==> exists shown :: FitsWithDots(lines[n], shown, box) && P.Concat(lines[..n]) + shown <= text)
  {
    var n := |laid| - 1;
    forall i | 0 <= i <= n ensures FitsOrSingle(laid[i], box) {
      GrownFits(laid[i], box);
    }
    assert text[..|text| - |lost|] == P.Concat(laid);
    if |lost| > 1 {
      var shown := Shorten(laid[n], box);
      var lines := Drawn(laid, lost, box);
      ConcatLast(laid);
      assert lines[..n] == laid[..n];
      assert laid[n] == shown + laid[n][|shown|..];
      assert text == P.Concat(laid[..n]) + shown + (laid[n][|shown|..] + lost);
      assert FitsWithDots(lines[n], shown, box);
    }
  }

  /** The first line is the text up to its length, and what follows is laid out in the lines left. */
  lemma FirstLine(a: seq<string>, lost: string, text: string, box: Box, room: int)
    requires LayoutIn(a, lost, text, box, room)
    ensures |a[0]| <= |text| && a[0] == text[..|a[0]|]
    ensures |a| == 1 ==> lost == text[|a[0]|..]
    ensures |a| > 1 ==> text[|a[0]|..] != "" && LayoutIn(a[1..], lost, text[|a[0]|..], box, room - 1)
  {
    var rest := P.Concat(a[1..]) + lost;
    assert text == a[0] + rest;
    assert rest == text[|a[0]|..];
    if |a| > 1 {
      assert P.Concat(a[1..]) == a[1] + P.Concat(a[1..][1..]);
      assert forall i | 0 <= i < |a| - 1 :: a[1..][i] == a[i + 1];
    } else {
      assert P.Concat(a[1..]) == "";
    }
  }

  /** The first line is as long as it can be. */
  lemma FirstLineFull(a: seq<string>, lost: string, text: string, box: Box, room: int)
    requires LayoutIn(a, lost, text, box, room)
    ensures |a[0]| < |text| ==> box.measure(text[..|a[0]| + 1]) > box.maxWidth
    ensures forall k | 2 <= k <= |a[0]| :: box.measure(text[..k]) <= box.maxWidth
  {
    FirstLine(a, lost, text, box, room);
    forall k | 2 <= k <= |a[0]| ensures box.measure(text[..k]) <= box.maxWidth {
      assert text[..k] == a[0][..k];
    }
    if |a[0]| < |text| {
      var c := text[|a[0]|];
      assert text[..|a[0]| + 1] == a[0] + [c];
      assert c == text[|a[0]|..][0];
      if |a| > 1 {
        FirstLine(a[1..], lost, text[|a[0]|..], box, room - 1);
        assert c == a[1][0];
      }
    }
  }

  lemma {:induction false} SameLayout(a: seq<string>, lostA: string, b: seq<string>, lostB: string, text: string, box: Box, room: int)
    requires LayoutIn(a, lostA, text, box, room) && LayoutIn(b, lostB, text, box, room)
    ensures a == b && lostA == lostB
    decreases |a|
  {
    FirstLine(a, lostA, text, box, room);
    FirstLine(b, lostB, text, box, room);
    FirstLineFull(a, lostA, text, box, room);
    FirstLineFull(b, lostB, text, box, room);
    assert |a[0]| == |b[0]|;
    assert a == [a[0]] + a[1..] && b == [b[0]] + b[1..];
    if |a| > 1 && |b| > 1 {
      SameLayout(a[1..], lostA, b[1..], lostB, text[|a[0]|..], box, room - 1);
    }
  }

  /** The layout is determined by the text and the box, so `Drawn` says exactly what is drawn. */
  lemma LayoutUnique(a: seq<string>, lostA: string, b: seq<string>, lostB: string, text: string, box: Box)
    requires Layout(a, lostA, text, box) && Layout(b, lostB, text, box)
    ensures a == b && lostA == lostB
  {
    SameLayout(a, lostA, b, lostB, text, box, box.maxLines);
  }

  /** The text but for its last character fills all the lines, and that character does not fit on the last. */
  ghost predicate OneTooMany(lines: seq<string>, text: string, box: Box) {
    && text != ""
    && Layout(lines, "", text[..|text| - 1], box) && |lines| == box.maxLines
    && Full(lines[|lines| - 1], text[|text| - 1], box)
  }

  /** Text goes missing without dots, by just its last character, exactly when it is one character too long. */
  lemma SilentLossIff(laid: seq<string>, lost: string, text: string, box: Box)
    requires Layout(laid, lost, text, box)
    ensures (Drawn(laid, lost, box) == laid && P.Concat(laid) == text[..|text| - |lost|] && |lost| == 1)
        <==> exists lines :: OneTooMany(lines, text, box)
  {
    var n := |text| - 1;
    assert |P.Concat(laid)| + |lost| == |text|;
    assert text[..|text| - |lost|] == P.Concat(laid);
    if |lost| == 1 {
      assert P.Concat(laid) + "" == text[..n];
      assert lost[0] == text[n];
      assert OneTooMany(laid, text, box);
    }
    if lines :| OneTooMany(lines, text, box) {
      assert P.Concat(lines) + [text[n]] == text by {
        assert P.Concat(lines) + "" == P.Concat(lines);
        assert text[..n] + [text[n]] == text;
      }
      LayoutUnique(laid, lost, lines, [text[n]], text, box);
    }
  }

  /** It does happen: "ab" on one line of one character is drawn as "a". */
  lemma LastCharacterLost() returns (box: Box)
    ensures box.maxLines == 1 && box.maxWidth == 1 && forall s :: box.measure(s) == |s|
    ensures CleanPosterText("ab") == "ab"
    ensures Layout(["a"], "b", "ab", box) && Drawn(["a"], "b", box) == ["a"]
  {
    box := Box(1, 1, (s: string) => |s|);
    assert Replace(Replace("ab", '\n', ' '), '\r', ' ') == "ab";
    WordLengthIs("ab", 2);
    assert "ab"[..2] == "ab" && "ab"[2..] == "" && Fields("") == [];
    assert P.Concat(["a"]) == "a" + P.Concat([]);
    assert "a" + ['b'] == "ab";
  }
}
