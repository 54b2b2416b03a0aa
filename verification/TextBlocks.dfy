/** campus-rag/main.py, `build_text_blocks`: paragraphs of stripped lines, each under its section heading. */
module TextBlocks {
  import opened PyStrings
  import opened Normalize
  import opened Sequences

  /** `s.split("\n")` */
  function SplitLines(s: string): (lines: seq<string>)
    ensures lines != []
  {
    if s == "" then [""]
    else if s[0] == '\n' then [""] + SplitLines(s[1..])
    else var tail := SplitLines(s[1..]); [[s[0]] + tail[0]] + tail[1..]
  }

  function StripAll(lines: seq<string>): (r: seq<string>)
    ensures |r| == |lines|
    ensures forall i | 0 <= i < |r| :: r[i] == Strip(lines[i])
  {
    seq(|lines|, i requires 0 <= i < |lines| => Strip(lines[i]))
  }

  /** `[line.strip() for line in normalize_text(text).split("\n")]` */
  function LinesOf(text: string): seq<string> {
    StripAll(SplitLines(NormalizeText(text)))
  }

  function NonEmpty(lines: seq<string>): seq<string> {
    if lines == [] then []
    else (if lines[0] == "" then [] else [lines[0]]) + NonEmpty(lines[1..])
  }

  /** A block before it is joined: `injected` says its first line is a copy of an earlier heading. */
  datatype Block = Block(injected: bool, lines: seq<string>)

  function Render(blocks: seq<Block>): seq<string> {
    if blocks == [] then [] else [Join(blocks[0].lines, "\n")] + Render(blocks[1..])
  }

  /** How many plain lines, neither empty nor headings, begin `lines`. */
  function BodyLength(lines: seq<string>, isHeading: string -> bool): (k: nat)
    ensures k <= |lines|
    ensures forall i | 0 <= i < k :: lines[i] != "" && !isHeading(lines[i])
    ensures k < |lines| ==> lines[k] == "" || isHeading(lines[k])
  {
    if lines == [] || lines[0] == "" || isHeading(lines[0]) then 0
    else 1 + BodyLength(lines[1..], isHeading)
  }

  /** The group's own block; one that does not open with a heading gets a copy of the latest, `title`. */
  function BlockOf(group: seq<string>, title: string, isHeading: string -> bool): Block
    requires group != []
  {
    if !isHeading(group[0]) && title != "" then Block(true, [title] + group) else Block(false, group)
  }

  function TitleAfter(group: seq<string>, title: string, isHeading: string -> bool): string
    requires group != []
  {
    if isHeading(group[0]) then group[0] else title
  }

  /**
   The blocks the lines stand for, read off group by group: a group is a non-empty line and the plain
   lines that follow it without a break.
   */
  function Sections(lines: seq<string>, title: string, isHeading: string -> bool): seq<Block>
    decreases |lines|
  {
    if lines == [] then []
    else if lines[0] == "" then Sections(lines[1..], title, isHeading)
    else
      var group := lines[..1 + BodyLength(lines[1..], isHeading)];
      [BlockOf(group, title, isHeading)] + Sections(lines[|group|..], TitleAfter(group, title, isHeading), isHeading)
  }

  /** The blocks still to come when `current` is open and `lines` are left to read. */
  function Resume(current: seq<string>, lines: seq<string>, title: string, isHeading: string -> bool): seq<string> {
    if current == [] then Render(Sections(lines, title, isHeading))
    else
      var k := BodyLength(lines, isHeading);
      [Join(current + lines[..k], "\n")] + Render(Sections(lines[k..], title, isHeading))
  }

  /** `build_text_blocks(text)` as a value; `isHeading` stands for the heading recogniser. */
  function BlocksOf(text: string, isHeading: string -> bool): seq<string> {
    Render(Sections(LinesOf(text), "", isHeading))
  }

  function Close(current: seq<string>): seq<string> {
    if current == [] then [] else [Join(current, "\n")]
  }

  function Opening(current: seq<string>, title: string): seq<string> {
    if title != "" && current == [] then [title] else current
  }

  lemma ResumeAtEnd(current: seq<string>, title: string, isHeading: string -> bool)
    ensures Resume(current, [], title, isHeading) == Close(current)
  {
    assert current + [] == current;
  }

  lemma ResumeBreak(current: seq<string>, lines: seq<string>, title: string, isHeading: string -> bool)
    requires lines != [] && lines[0] == ""
    ensures Resume(current, lines, title, isHeading) == Close(current) + Resume([], lines[1..], title, isHeading)
  {
    assert current + [] == current;
    assert lines[0..] == lines;
  }

  lemma ResumeHeading(current: seq<string>, lines: seq<string>, title: string, isHeading: string -> bool)
    requires lines != [] && lines[0] != "" && isHeading(lines[0])
    ensures Resume(current, lines, title, isHeading) == Close(current) + Resume([lines[0]], lines[1..], lines[0], isHeading)
  {
    var k := BodyLength(lines[1..], isHeading);
    assert lines[..1 + k] == [lines[0]] + lines[1..][..k] && lines[1 + k..] == lines[1..][k..];
    assert current + [] == current;
    assert lines[0..] == lines;
  }

  lemma ResumePlain(current: seq<string>, lines: seq<string>, title: string, isHeading: string -> bool)
    requires lines != [] && lines[0] != "" && !isHeading(lines[0])
    ensures Resume(current, lines, title, isHeading)
         == Resume(Opening(current, title) + [lines[0]], lines[1..], title, isHeading)
  {
    var k := BodyLength(lines[1..], isHeading);
    assert lines[..1 + k] == [lines[0]] + lines[1..][..k] && lines[1 + k..] == lines[1..][k..];
    assert current != [] ==> BodyLength(lines, isHeading) == 1 + k;
    assert (Opening(current, title) + [lines[0]]) + lines[1..][..k] == Opening(current, title) + lines[..1 + k];
    assert current == [] && title == "" ==> Opening(current, title) + lines[..1 + k] == lines[..1 + k];
  }

  /** The loop's variables. */
  datatype Builder = Builder(blocks: seq<string>, current: seq<string>, title: string)

  function ReadLine(b: Builder, line: string, isHeading: string -> bool): Builder {
    if line == "" then Builder(b.blocks + Close(b.current), [], b.title)
    else if isHeading(line) then Builder(b.blocks + Close(b.current), [line], line)
    else Builder(b.blocks, Opening(b.current, b.title) + [line], b.title)
  }

  function ReadLines(b: Builder, lines: seq<string>, isHeading: string -> bool): Builder
    decreases |lines|
  {
    if lines == [] then b else ReadLines(ReadLine(b, lines[0], isHeading), lines[1..], isHeading)
  }

  /** What will have been written once the open block and the remaining lines are done. */
  function Outcome(b: Builder, lines: seq<string>, isHeading: string -> bool): seq<string> {
    b.blocks + Resume(b.current, lines, b.title, isHeading)
  }

  lemma ReadLineKeepsOutcome(b: Builder, lines: seq<string>, isHeading: string -> bool)
    requires lines != []
    ensures Outcome(ReadLine(b, lines[0], isHeading), lines[1..], isHeading) == Outcome(b, lines, isHeading)
  {
    if lines[0] == "" {
      ResumeBreak(b.current, lines, b.title, isHeading);
      Regroup(b.blocks, Close(b.current), Resume([], lines[1..], b.title, isHeading));
    } else if isHeading(lines[0]) {
      ResumeHeading(b.current, lines, b.title, isHeading);
      Regroup(b.blocks, Close(b.current), Resume([lines[0]], lines[1..], lines[0], isHeading));
    } else {
      ResumePlain(b.current, lines, b.title, isHeading);
    }
  }

  /** Reading line by line gives the blocks read off group by group. */
  lemma {:induction false} ReadLinesGivesSections(b: Builder, lines: seq<string>, isHeading: string -> bool)
    ensures Outcome(ReadLines(b, lines, isHeading), [], isHeading) == Outcome(b, lines, isHeading)
    decreases |lines|
  {
    if lines != [] {
      ReadLineKeepsOutcome(b, lines, isHeading);
      ReadLinesGivesSections(ReadLine(b, lines[0], isHeading), lines[1..], isHeading);
    }
  }

  lemma StripOfJoined(current: seq<string>)
    requires current != [] && AllSolid(current)
    ensures Strip(Join(current, "\n")) == Join(current, "\n") != ""
  {
    JoinSolid(current, "\n");
    StripOfTrimmed(Join(current, "\n"));
  }

  method FlushCurrent(blocks: seq<string>, current: seq<string>) returns (blocks': seq<string>)
    requires AllSolid(current)
    ensures blocks' == blocks + Close(current)
  {
    if |current| == 0 {
      return blocks;
    }
    StripOfJoined(current);
    var block := Strip(Join(current, "\n"));
    if block != "" {
      return blocks + [block];
    }
    return blocks;
  }

  lemma LinesTrimmed(text: string)
    ensures forall i | 0 <= i < |LinesOf(text)| :: Trimmed(LinesOf(text)[i])
  {
    var raw := SplitLines(NormalizeText(text));
    forall i | 0 <= i < |raw| ensures Trimmed(LinesOf(text)[i]) {
      StripTrims(raw[i]);
    }
  }

  method BuildTextBlocks(text: string, isHeading: string -> bool) returns (blocks: seq<string>)
    ensures blocks == BlocksOf(text, isHeading)
  {
    var lines := LinesOf(text);
    LinesTrimmed(text);
    blocks := [];
    var current: seq<string> := [];
    var sectionTitle := "";
    assert lines[0..] == lines;
    ghost var all := ReadLines(Builder([], [], ""), lines, isHeading);
    for i := 0 to |lines|
      invariant AllSolid(current) && (sectionTitle == "" || Solid(sectionTitle))
      invariant all == ReadLines(Builder(blocks, current, sectionTitle), lines[i..], isHeading)
    {
      var line := lines[i];
      assert lines[i..][0] == line && lines[i..][1..] == lines[i + 1..];
      if line == "" {
        blocks := FlushCurrent(blocks, current);
        current := [];
      } else if isHeading(line) {
        blocks := FlushCurrent(blocks, current);
        sectionTitle := line;
        current := [line];
      } else {
        if sectionTitle != "" && |current| == 0 {
          current := [sectionTitle];
        }
        current := current + [line];
      }
    }
    assert lines[|lines|..] == [];
    ReadLinesGivesSections(Builder([], [], ""), lines, isHeading);
    ResumeAtEnd(current, sectionTitle, isHeading);
    blocks := FlushCurrent(blocks, current);
  }

  // ----- What the blocks are -----

  /** The blocks' lines with the injected headings dropped. */
  function OwnLines(blocks: seq<Block>): seq<string> {
    if blocks == [] then []
    else (if blocks[0].injected && blocks[0].lines != [] then blocks[0].lines[1..] else blocks[0].lines) + OwnLines(blocks[1..])
  }

  lemma OwnLinesCons(block: Block, own: seq<string>, blocks: seq<Block>)
    requires block.lines != [] && own == if block.injected then block.lines[1..] else block.lines
    ensures OwnLines([block] + blocks) == own + OwnLines(blocks)
  {
    assert ([block] + blocks)[1..] == blocks;
  }

  lemma {:induction false} NonEmptyPrefix(lines: seq<string>, k: nat)
    requires k <= |lines| && forall i | 0 <= i < k :: lines[i] != ""
    ensures NonEmpty(lines) == lines[..k] + NonEmpty(lines[k..])
  {
    if k > 0 {
      NonEmptyPrefix(lines[1..], k - 1);
      assert lines[..k] == [lines[0]] + lines[1..][..k - 1];
      assert lines[1..][k - 1..] == lines[k..];
    } else {
      assert lines[..0] == [] && lines[0..] == lines;
    }
  }

  /** Every non-empty line is in exactly one block, in order. */
  lemma {:induction false} SectionsKeepLines(lines: seq<string>, title: string, isHeading: string -> bool)
    ensures OwnLines(Sections(lines, title, isHeading)) == NonEmpty(lines)
    decreases |lines|
  {
    if lines == [] {
    } else if lines[0] == "" {
      SectionsKeepLines(lines[1..], title, isHeading);
    } else {
      var group := lines[..1 + BodyLength(lines[1..], isHeading)];
      var rest := lines[|group|..];
      assert forall i | 0 < i < |group| :: lines[i] == lines[1..][i - 1];
      NonEmptyPrefix(lines, |group|);
      assert ([title] + group)[1..] == group;
      OwnLinesCons(BlockOf(group, title, isHeading), group, Sections(rest, TitleAfter(group, title, isHeading), isHeading));
      SectionsKeepLines(rest, TitleAfter(group, title, isHeading), isHeading);
    }
  }

  /** The last heading among `lines`, or `title` when there is none. */
  function LastHeading(lines: seq<string>, title: string, isHeading: string -> bool): string {
    if lines == [] then title
    else if lines[|lines| - 1] != "" && isHeading(lines[|lines| - 1]) then lines[|lines| - 1]
    else LastHeading(lines[..|lines| - 1], title, isHeading)
  }

  lemma {:induction false} LastHeadingAppend(a: seq<string>, b: seq<string>, title: string, isHeading: string -> bool)
    ensures LastHeading(a + b, title, isHeading) == LastHeading(b, LastHeading(a, title, isHeading), isHeading)
  {
    if b == [] {
      assert a + b == a;
    } else {
      assert (a + b)[..|a + b| - 1] == a + b[..|b| - 1];
      LastHeadingAppend(a, b[..|b| - 1], title, isHeading);
    }
  }

  lemma {:induction false} LastHeadingOfGroup(group: seq<string>, title: string, isHeading: string -> bool)
    requires group != [] && group[0] != "" && forall i | 0 < i < |group| :: !isHeading(group[i])
    ensures LastHeading(group, title, isHeading) == if isHeading(group[0]) then group[0] else title
  {
    if |group| > 1 {
      LastHeadingOfGroup(group[..|group| - 1], title, isHeading);
    }
  }

  /**
   A block that opens below a heading opens with it: the first line of block `i` is the last heading
   among the own lines read up to and including that block's first own line. Only the first line of
   a block can be a heading, and a block is injected exactly when a heading precedes it and its own
   first line is not one.
   */
  ghost predicate Headed(blocks: seq<Block>, i: nat, title: string, isHeading: string -> bool)
    requires i < |blocks|
  {
    var b := blocks[i];
    var above := LastHeading(OwnLines(blocks[..i]), title, isHeading);
    && b.lines != []
    && (forall j | 1 <= j < |b.lines| :: b.lines[j] != "" && !isHeading(b.lines[j]))
    && (b.injected ==> |b.lines| >= 2 && b.lines[0] == above != "")
    && (!b.injected ==> b.lines[0] != "" && (isHeading(b.lines[0]) || above == ""))
  }

  lemma GroupHeaded(group: seq<string>, tail: seq<Block>, title: string, isHeading: string -> bool)
    requires group != [] && group[0] != "" && forall j | 0 < j < |group| :: group[j] != "" && !isHeading(group[j])
    ensures Headed([BlockOf(group, title, isHeading)] + tail, 0, title, isHeading)
  {
    assert ([BlockOf(group, title, isHeading)] + tail)[..0] == [];
  }

  lemma HeadedCons(group: seq<string>, tail: seq<Block>, i: nat, title: string, isHeading: string -> bool)
    requires group != [] && group[0] != "" && forall j | 0 < j < |group| :: group[j] != "" && !isHeading(group[j])
    requires i < |tail| && Headed(tail, i, TitleAfter(group, title, isHeading), isHeading)
    ensures Headed([BlockOf(group, title, isHeading)] + tail, i + 1, title, isHeading)
  {
    var block := BlockOf(group, title, isHeading);
    assert ([block] + tail)[..i + 1] == [block] + tail[..i];
    assert ([title] + group)[1..] == group;
    OwnLinesCons(block, group, tail[..i]);
    LastHeadingAppend(group, OwnLines(tail[..i]), title, isHeading);
    LastHeadingOfGroup(group, title, isHeading);
  }

  lemma {:induction false} SectionsHeaded(lines: seq<string>, title: string, isHeading: string -> bool, i: nat)
    requires i < |Sections(lines, title, isHeading)|
    ensures Headed(Sections(lines, title, isHeading), i, title, isHeading)
    decreases |lines|
  {
    if lines[0] == "" {
      SectionsHeaded(lines[1..], title, isHeading, i);
    } else {
      var group := lines[..1 + BodyLength(lines[1..], isHeading)];
      assert forall j | 0 < j < |group| :: group[j] == lines[1..][j - 1];
      var tail := Sections(lines[|group|..], TitleAfter(group, title, isHeading), isHeading);
      if i == 0 {
        GroupHeaded(group, tail, title, isHeading);
      } else {
        SectionsHeaded(lines[|group|..], TitleAfter(group, title, isHeading), isHeading, i - 1);
        HeadedCons(group, tail, i - 1, title, isHeading);
      }
    }
  }

  /** The heading theorem at the top: blocks of any text, no heading seen before it. */
  lemma BlocksAreHeaded(text: string, isHeading: string -> bool) returns (shape: seq<Block>)
    ensures BlocksOf(text, isHeading) == Render(shape)
    ensures OwnLines(shape) == NonEmpty(LinesOf(text))
    ensures forall i | 0 <= i < |shape| :: Headed(shape, i, "", isHeading)
  {
    var lines := LinesOf(text);
    shape := Sections(lines, "", isHeading);
    SectionsKeepLines(lines, "", isHeading);
    forall i | 0 <= i < |shape| ensures Headed(shape, i, "", isHeading) {
      SectionsHeaded(lines, "", isHeading, i);
    }
  }

  lemma BlockSolid(group: seq<string>, title: string, isHeading: string -> bool)
    requires group != [] && AllSolid(group) && (title == "" || Solid(title))
    ensures Solid(Join(BlockOf(group, title, isHeading).lines, "\n"))
  {
    JoinSolid(group, "\n");
    if title != "" {
      JoinSolid([title] + group, "\n");
    }
  }

  /** Every block is non-empty and has no space at either end, which is why `strip` never changes one. */
  lemma {:induction false} SectionsSolid(lines: seq<string>, title: string, isHeading: string -> bool)
    requires forall i | 0 <= i < |lines| :: Trimmed(lines[i])
    requires title == "" || Solid(title)
    ensures AllSolid(Render(Sections(lines, title, isHeading)))
    decreases |lines|
  {
    if lines == [] {
    } else if lines[0] == "" {
      SectionsSolid(lines[1..], title, isHeading);
    } else {
      var group := lines[..1 + BodyLength(lines[1..], isHeading)];
      assert forall j | 0 < j < |group| :: group[j] == lines[1..][j - 1];
      SectionsSolid(lines[|group|..], TitleAfter(group, title, isHeading), isHeading);
      BlockSolid(group, title, isHeading);
    }
  }

  lemma BlocksSolid(text: string, isHeading: string -> bool)
    ensures AllSolid(BlocksOf(text, isHeading))
  {
    var lines := LinesOf(text);
    LinesTrimmed(text);
    SectionsSolid(lines, "", isHeading);
  }

  // ----- The blocks hold the whole text -----

  lemma InkOfFirstLine(c: char, lines: seq<string>)
    requires lines != []
    ensures Ink(Concat([[c] + lines[0]] + lines[1..])) == Ink([c]) + Ink(Concat(lines))
  {
    assert lines == [lines[0]] + lines[1..];
    InkOfCons([c] + lines[0], lines[1..]);
    InkOfCons(lines[0], lines[1..]);
    InkAppend([c], lines[0]);
  }

  lemma {:induction false} InkOfLines(s: string)
    ensures Ink(Concat(SplitLines(s))) == Ink(s)
  {
    if s == "" {
      InkOfCons("", []);
      assert [""] + [] == [""];
    } else {
      InkOfLines(s[1..]);
      assert s == [s[0]] + s[1..];
      InkAppend([s[0]], s[1..]);
      if s[0] == '\n' {
        InkOfCons("", SplitLines(s[1..]));
      } else {
        InkOfFirstLine(s[0], SplitLines(s[1..]));
      }
    }
  }

  lemma {:induction false} InkOfStripAll(lines: seq<string>)
    ensures Ink(Concat(NonEmpty(StripAll(lines)))) == Ink(Concat(lines))
  {
    if lines == [] {
    } else {
      var tail := NonEmpty(StripAll(lines[1..]));
      assert StripAll(lines)[1..] == StripAll(lines[1..]);
      InkOfStripAll(lines[1..]);
      InkOfStrip(lines[0]);
      InkAppend(lines[0], Concat(lines[1..]));
      if Strip(lines[0]) == "" {
        assert NonEmpty(StripAll(lines)) == tail;
      } else {
        InkOfCons(Strip(lines[0]), tail);
      }
    }
  }

  lemma {:induction false} OwnLinesAreRendered(blocks: seq<Block>)
    ensures Subsequence(Ink(Concat(OwnLines(blocks))), Ink(Concat(Render(blocks))))
  {
    if blocks != [] {
      var lines := blocks[0].lines;
      var own := if blocks[0].injected && lines != [] then lines[1..] else lines;
      OwnLinesAreRendered(blocks[1..]);
      InkOfConcat(own, OwnLines(blocks[1..]));
      InkOfCons(Join(lines, "\n"), Render(blocks[1..]));
      InkOfJoin(lines, "\n");
      SubsequenceOfSelf(Ink(Concat(own)));
      if own != lines {
        InkAppend(lines[0], Concat(own));
        SubsequencePrefixed(Ink(lines[0]), Ink(Concat(own)), Ink(Concat(own)));
      }
      SubsequenceAppend(Ink(Concat(own)), Ink(Concat(lines)), Ink(Concat(OwnLines(blocks[1..]))), Ink(Concat(Render(blocks[1..]))));
    }
  }

  /** Every character of the text that is not a space is in the blocks, in order. */
  lemma BlocksKeepInk(text: string, isHeading: string -> bool)
    ensures Subsequence(Ink(text), Ink(Concat(BlocksOf(text, isHeading))))
  {
    var lines := LinesOf(text);
    NormalizeKeepsInk(text);
    InkOfLines(NormalizeText(text));
    InkOfStripAll(SplitLines(NormalizeText(text)));
    SectionsKeepLines(lines, "", isHeading);
    OwnLinesAreRendered(Sections(lines, "", isHeading));
  }

  // ----- Where lines and blocks are cut -----

  /** Lines are cut at the newlines and nowhere else. */
  lemma {:induction false} LinesCutAtNewlines(s: string)
    ensures Join(SplitLines(s), "\n") == s
    ensures forall i | 0 <= i < |SplitLines(s)| :: '\n' !in SplitLines(s)[i]
  {
    if s == "" {
    } else {
      var tail := SplitLines(s[1..]);
      LinesCutAtNewlines(s[1..]);
      if s[0] == '\n' {
        assert ([""] + tail)[1..] == tail;
        assert "" + "\n" + Join(tail, "\n") == [s[0]] + s[1..];
      } else {
        JoinPrefixed([s[0]], tail);
        assert s == [s[0]] + s[1..];
      }
    }
  }

  lemma JoinPrefixed(x: string, lines: seq<string>)
    requires lines != []
    ensures Join([x + lines[0]] + lines[1..], "\n") == x + Join(lines, "\n")
  {
    var grown := [x + lines[0]] + lines[1..];
    assert grown[1..] == lines[1..];
    if |lines| > 1 {
      assert (x + lines[0]) + "\n" + Join(lines[1..], "\n") == x + (lines[0] + "\n" + Join(lines[1..], "\n"));
    }
  }

  lemma {:induction false} LinesOfParts(a: string, b: string)
    ensures SplitLines(a + "\n" + b) == SplitLines(a) + SplitLines(b)
  {
    var s := a + "\n" + b;
    if a == "" {
      assert s[0] == '\n' && s[1..] == b;
    } else {
      assert s[0] == a[0] && s[1..] == a[1..] + "\n" + b;
      LinesOfParts(a[1..], b);
    }
  }

  lemma {:induction false} BodyLengthIs(lines: seq<string>, isHeading: string -> bool, k: nat)
    requires k <= |lines| && forall i | 0 <= i < k :: lines[i] != "" && !isHeading(lines[i])
    requires k < |lines| ==> lines[k] == "" || isHeading(lines[k])
    ensures BodyLength(lines, isHeading) == k
  {
    if k > 0 {
      BodyLengthIs(lines[1..], isHeading, k - 1);
    }
  }

  /** A line at which the lines before it end their block. */
  predicate Breaks(line: string, isHeading: string -> bool) {
    line == "" || isHeading(line)
  }

  /** A line with the plain lines after it, up to a breaking line, is the first block. */
  lemma FirstGroup(group: seq<string>, rest: seq<string>, title: string, isHeading: string -> bool)
    requires group != [] && group[0] != "" && (forall i | 0 < i < |group| :: !Breaks(group[i], isHeading))
    requires rest != [] ==> Breaks(rest[0], isHeading)
    ensures Sections(group + rest, title, isHeading)
         == [BlockOf(group, title, isHeading)] + Sections(rest, TitleAfter(group, title, isHeading), isHeading)
  {
    var all := group + rest;
    assert all[1..] == group[1..] + rest;
    BodyLengthIs(all[1..], isHeading, |group| - 1);
    assert all[..|group|] == group && all[|group|..] == rest;
  }

  /** The first group of lines that do not begin with a blank one. */
  lemma GroupOf(lines: seq<string>, isHeading: string -> bool) returns (group: seq<string>, rest: seq<string>)
    requires lines != [] && lines[0] != ""
    ensures lines == group + rest && group != [] && group[0] == lines[0]
    ensures forall i | 0 < i < |group| :: !Breaks(group[i], isHeading)
    ensures rest != [] ==> Breaks(rest[0], isHeading)
  {
    var k := BodyLength(lines[1..], isHeading);
    group, rest := lines[..1 + k], lines[1 + k..];
    assert forall i | 0 < i < |group| :: group[i] == lines[1..][i - 1];
    assert k < |lines[1..]| ==> rest[0] == lines[1..][k];
  }

  /** The lines before a breaking line make the blocks they would make alone, and so do the lines from it on, under the latest heading. */
  lemma {:induction false} SectionsSplit(a: seq<string>, b: seq<string>, title: string, isHeading: string -> bool)
    requires b != [] ==> Breaks(b[0], isHeading)
    ensures Sections(a + b, title, isHeading)
         == Sections(a, title, isHeading) + Sections(b, LastHeading(a, title, isHeading), isHeading)
    decreases |a|
  {
    if a == [] {
      assert a + b == b;
    } else if a[0] == "" {
      assert (a + b)[1..] == a[1..] + b;
      SectionsSplit(a[1..], b, title, isHeading);
      LastHeadingOfTail(a, 1, title, title, isHeading);
    } else {
      var group, rest := GroupOf(a, isHeading);
      var title' := TitleAfter(group, title, isHeading);
      FirstGroup(group, rest, title, isHeading);
      Regroup(group, rest, b);
      FirstGroup(group, rest + b, title, isHeading);
      SectionsSplit(rest, b, title', isHeading);
      LastHeadingAppend(group, rest, title, isHeading);
      LastHeadingOfFront(group, title, isHeading);
      Regroup([BlockOf(group, title, isHeading)], Sections(rest, title', isHeading), Sections(b, LastHeading(rest, title', isHeading), isHeading));
    }
  }

  lemma LastHeadingOfTail(a: seq<string>, k: nat, title: string, title': string, isHeading: string -> bool)
    requires 0 < k <= |a|
    requires forall i | 0 < i < k :: !isHeading(a[i])
    requires title' == if a[0] != "" && isHeading(a[0]) then a[0] else title
    ensures LastHeading(a, title, isHeading) == LastHeading(a[k..], title', isHeading)
  {
    assert a == a[..k] + a[k..];
    LastHeadingAppend(a[..k], a[k..], title, isHeading);
    LastHeadingOfFront(a[..k], title, isHeading);
  }

  lemma {:induction false} LastHeadingOfFront(group: seq<string>, title: string, isHeading: string -> bool)
    requires group != [] && forall i | 0 < i < |group| :: !isHeading(group[i])
    ensures LastHeading(group, title, isHeading) == if group[0] != "" && isHeading(group[0]) then group[0] else title
  {
    if |group| > 1 {
      LastHeadingOfFront(group[..|group| - 1], title, isHeading);
    }
  }

  /** The stripped lines of a text that is normalised already. */
  function StrippedLines(text: string): seq<string> {
    StripAll(SplitLines(text))
  }

  lemma StripAllAppend(a: seq<string>, b: seq<string>)
    ensures StripAll(a + b) == StripAll(a) + StripAll(b)
  {
  }

  lemma LinesAroundBlank(a: string, blank: string, b: string)
    requires AllSpace(blank) && '\n' !in blank
    ensures StrippedLines(a + "\n" + blank + "\n" + b) == StrippedLines(a) + ([""] + StrippedLines(b))
  {
    LinesOfParts(a + "\n" + blank, b);
    LinesOfParts(a, blank);
    OneLine(blank);
    StripTrims(blank);
    StripAllAppend(SplitLines(a) + [blank], SplitLines(b));
    StripAllAppend(SplitLines(a), [blank]);
    assert StripAll([blank]) == [""];
    Regroup(StrippedLines(a), [""], StrippedLines(b));
  }

  /**
   A blank line always separates blocks: when the normalised text is `a`, a blank line and `b`, its blocks
   are those of `a`'s lines and then those of `b`'s, which begin under the latest heading of `a`.
   */
  lemma BlankLineSeparates(text: string, a: string, blank: string, b: string, isHeading: string -> bool)
    requires NormalizeText(text) == a + "\n" + blank + "\n" + b
    requires AllSpace(blank) && '\n' !in blank
    ensures BlocksOf(text, isHeading)
         == Render(Sections(StrippedLines(a), "", isHeading))
            + Render(Sections(StrippedLines(b), LastHeading(StrippedLines(a), "", isHeading), isHeading))
  {
    LinesAroundBlank(a, blank, b);
    BlankSplits(StrippedLines(a), StrippedLines(b), "", isHeading);
  }

  lemma BlankSplits(la: seq<string>, lb: seq<string>, title: string, isHeading: string -> bool)
    ensures Render(Sections(la + ([""] + lb), title, isHeading))
         == Render(Sections(la, title, isHeading)) + Render(Sections(lb, LastHeading(la, title, isHeading), isHeading))
  {
    var title' := LastHeading(la, title, isHeading);
    SectionsSplit(la, [""] + lb, title, isHeading);
    assert ([""] + lb)[1..] == lb;
    RenderAppend(Sections(la, title, isHeading), Sections(lb, title', isHeading));
  }

  lemma {:induction false} OneLine(s: string)
    requires '\n' !in s
    ensures SplitLines(s) == [s]
  {
    if s != "" {
      OneLine(s[1..]);
      assert s == [s[0]] + s[1..];
    }
  }

  lemma {:induction false} RenderAppend(a: seq<Block>, b: seq<Block>)
    ensures Render(a + b) == Render(a) + Render(b)
  {
    if a == [] {
      assert a + b == b;
    } else {
      assert (a + b)[1..] == a[1..] + b;
      RenderAppend(a[1..], b);
      Regroup([Join(a[0].lines, "\n")], Render(a[1..]), Render(b));
    }
  }

  /** `t` is `s` with one more line in its last block. */
  predicate Grew(s: seq<Block>, t: seq<Block>, y: string) {
    s != [] && t == s[..|s| - 1] + [Block(s[|s| - 1].injected, s[|s| - 1].lines + [y])]
  }

  lemma GrewCons(first: Block, s: seq<Block>, t: seq<Block>, y: string)
    requires Grew(s, t, y)
    ensures Grew([first] + s, [first] + t, y)
  {
    assert ([first] + s)[..|s|] == [first] + s[..|s| - 1];
  }

  lemma LastGroupGrows(group: seq<string>, y: string, title: string, isHeading: string -> bool)
    requires group != [] && group[0] != "" && (forall i | 0 < i < |group| :: !Breaks(group[i], isHeading))
    requires !Breaks(y, isHeading)
    ensures Grew(Sections(group, title, isHeading), Sections(group + [y], title, isHeading), y)
  {
    assert group + [] == group && (group + [y]) + [] == group + [y];
    FirstGroup(group, [], title, isHeading);
    FirstGroup(group + [y], [], title, isHeading);
    Regroup([title], group, [y]);
  }

  /** And nothing but a blank line or a heading does: a plain line after one that is not blank joins its block. */
  lemma {:induction false} PlainLineJoins(a: seq<string>, y: string, title: string, isHeading: string -> bool)
    requires a != [] && a[|a| - 1] != "" && !Breaks(y, isHeading)
    ensures Grew(Sections(a, title, isHeading), Sections(a + [y], title, isHeading), y)
    decreases |a|
  {
    if a[0] == "" {
      assert (a + [y])[1..] == a[1..] + [y];
      PlainLineJoins(a[1..], y, title, isHeading);
    } else {
      var group, rest := GroupOf(a, isHeading);
      if rest == [] {
        assert group == a;
        LastGroupGrows(group, y, title, isHeading);
      } else {
        var title' := TitleAfter(group, title, isHeading);
        PlainLineJoins(rest, y, title', isHeading);
        FirstGroup(group, rest, title, isHeading);
        Regroup(group, rest, [y]);
        FirstGroup(group, rest + [y], title, isHeading);
        GrewCons(BlockOf(group, title, isHeading), Sections(rest, title', isHeading), Sections(rest + [y], title', isHeading), y);
      }
    }
  }
}
