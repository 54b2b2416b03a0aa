/** campus-rag/main.py, `normalize_text`: three regular-expression rewrites and a strip. */
module Normalize {
  import opened PyStrings
  import opened Sequences

  predicate IsBlank(c: char) { c == ' ' || c == '\t' }

  predicate IsBreak(c: char) { c == '\n' || c == '\r' }

  /** How many copies of a character satisfying `p` begin `s`. */
  function Run(s: string, p: char -> bool): (k: nat)
    ensures k <= |s|
    ensures forall i | 0 <= i < k :: p(s[i])
    ensures k < |s| ==> !p(s[k])
  {
    if s != "" && p(s[0]) then 1 + Run(s[1..], p) else 0
  }

  lemma {:induction false} RunIs(s: string, p: char -> bool, k: nat)
    requires k <= |s| && forall i | 0 <= i < k :: p(s[i])
    requires k < |s| ==> !p(s[k])
    ensures Run(s, p) == k
  {
    if k > 0 {
      RunIs(s[1..], p, k - 1);
    }
  }

  /** `re.sub(r"\r\n?", "\n", s)` */
  function UnixBreaks(s: string): string {
    if s == "" then ""
    else if s[0] == '\r' then "\n" + UnixBreaks(if |s| > 1 && s[1] == '\n' then s[2..] else s[1..])
    else [s[0]] + UnixBreaks(s[1..])
  }

  /** `re.sub(r"[ \t]+", " ", s)` */
  function SqueezeBlanks(s: string): string {
    if s == "" then ""
    else if IsBlank(s[0]) then " " + SqueezeBlanks(s[Run(s, IsBlank)..])
    else [s[0]] + SqueezeBlanks(s[1..])
  }

  function IsNewline(c: char): bool { c == '\n' }

  /** `re.sub(r"\n{3,}", "\n\n", s)` */
  function SqueezeNewlines(s: string): string {
    if s == "" then ""
    else if s[0] == '\n' then
      var k := Run(s, IsNewline);
      (if k >= 3 then "\n\n" else s[..k]) + SqueezeNewlines(s[k..])
    else [s[0]] + SqueezeNewlines(s[1..])
  }

  /** `normalize_text(text)` */
  function NormalizeText(text: string): string {
    Strip(SqueezeNewlines(SqueezeBlanks(UnixBreaks(text))))
  }

  // ----- The normal form -----

  predicate NoReturns(s: string) { forall i | 0 <= i < |s| :: s[i] != '\r' }

  predicate NoBlankRuns(s: string) {
    && (forall i | 0 <= i < |s| :: s[i] != '\t')
    && (forall i | 0 <= i < |s| - 1 :: s[i] == ' ' ==> s[i + 1] != ' ')
  }

  predicate NoTripleBreaks(s: string) {
    forall i | 0 <= i < |s| - 2 :: s[i] == '\n' && s[i + 1] == '\n' ==> s[i + 2] != '\n'
  }

  predicate NormalForm(s: string) {
    NoReturns(s) && NoBlankRuns(s) && NoTripleBreaks(s) && Trimmed(s)
  }

  lemma {:induction false} UnixBreaksNoReturns(s: string)
    ensures NoReturns(UnixBreaks(s))
  {
    if s == "" {
    } else if s[0] == '\r' {
      UnixBreaksNoReturns(if |s| > 1 && s[1] == '\n' then s[2..] else s[1..]);
    } else {
      UnixBreaksNoReturns(s[1..]);
    }
  }

  lemma {:induction false} SqueezeBlanksShape(s: string)
    requires NoReturns(s)
    ensures NoReturns(SqueezeBlanks(s)) && NoBlankRuns(SqueezeBlanks(s))
    ensures s != "" ==> SqueezeBlanks(s) != "" && SqueezeBlanks(s)[0] == if IsBlank(s[0]) then ' ' else s[0]
  {
    if s == "" {
    } else if IsBlank(s[0]) {
      var k := Run(s, IsBlank);
      SqueezeBlanksShape(s[k..]);
    } else {
      SqueezeBlanksShape(s[1..]);
    }
  }

  /** Joining two texts keeps their shape when the seam is not inside a run. */
  lemma JoinKeepsShape(a: string, b: string)
    requires NoReturns(a) && NoBlankRuns(a) && NoTripleBreaks(a)
    requires NoReturns(b) && NoBlankRuns(b) && NoTripleBreaks(b)
    requires a != "" && b != "" ==> !(a[|a| - 1] == ' ' && b[0] == ' ') && !(a[|a| - 1] == '\n' && b[0] == '\n')
    ensures NoReturns(a + b) && NoBlankRuns(a + b) && NoTripleBreaks(a + b)
  {
  }

  lemma {:induction false} SqueezeNewlinesShape(s: string)
    requires NoReturns(s) && NoBlankRuns(s)
    ensures NoReturns(SqueezeNewlines(s)) && NoBlankRuns(SqueezeNewlines(s)) && NoTripleBreaks(SqueezeNewlines(s))
    ensures s != "" ==> SqueezeNewlines(s) != "" && SqueezeNewlines(s)[0] == s[0]
  {
    if s == "" {
    } else if s[0] == '\n' {
      var k := Run(s, IsNewline);
      SqueezeNewlinesShape(s[k..]);
      JoinKeepsShape(if k >= 3 then "\n\n" else s[..k], SqueezeNewlines(s[k..]));
    } else {
      SqueezeNewlinesShape(s[1..]);
      JoinKeepsShape([s[0]], SqueezeNewlines(s[1..]));
    }
  }

  lemma SliceKeepsShape(s: string, a: nat, b: nat)
    requires a <= b <= |s| && NoReturns(s) && NoBlankRuns(s) && NoTripleBreaks(s)
    ensures NoReturns(s[a..b]) && NoBlankRuns(s[a..b]) && NoTripleBreaks(s[a..b])
  {
    assert forall i | 0 <= i < b - a :: s[a..b][i] == s[a + i];
  }

  /** Whatever the input, the result is in normal form. */
  lemma NormalizeReachesNormalForm(text: string)
    ensures NormalForm(NormalizeText(text))
  {
    UnixBreaksNoReturns(text);
    SqueezeBlanksShape(UnixBreaks(text));
    var s := SqueezeNewlines(SqueezeBlanks(UnixBreaks(text)));
    SqueezeNewlinesShape(SqueezeBlanks(UnixBreaks(text)));
    var a, b := StripSplits(s);
    SliceKeepsShape(s, a, b);
  }

  lemma {:induction false} UnixBreaksFixed(s: string)
    requires NoReturns(s)
    ensures UnixBreaks(s) == s
  {
    if s != "" {
      UnixBreaksFixed(s[1..]);
    }
  }

  lemma {:induction false} SqueezeBlanksFixed(s: string)
    requires NoBlankRuns(s)
    ensures SqueezeBlanks(s) == s
  {
    if s != "" {
      if IsBlank(s[0]) {
        assert Run(s, IsBlank) == 1;
      }
      SqueezeBlanksFixed(s[1..]);
    }
  }

  lemma {:induction false} SqueezeNewlinesFixed(s: string)
    requires NoTripleBreaks(s)
    ensures SqueezeNewlines(s) == s
  {
    if s != "" {
      if s[0] == '\n' {
        var k := Run(s, IsNewline);
        assert |s| >= 3 ==> !(s[0] == '\n' && s[1] == '\n' && s[2] == '\n');
        SqueezeNewlinesFixed(s[k..]);
      } else {
        SqueezeNewlinesFixed(s[1..]);
      }
    }
  }

  /** The fixed points of normalisation are exactly the strings in normal form. */
  lemma NormalFormIffFixed(s: string)
    ensures NormalForm(s) <==> NormalizeText(s) == s
  {
    if NormalForm(s) {
      UnixBreaksFixed(s);
      SqueezeBlanksFixed(s);
      SqueezeNewlinesFixed(s);
      StripOfTrimmed(s);
    } else {
      NormalizeReachesNormalForm(s);
    }
  }

  /** Normalising twice is normalising once. */
  lemma NormalizeIdempotent(text: string)
    ensures NormalizeText(NormalizeText(text)) == NormalizeText(text)
  {
    NormalizeReachesNormalForm(text);
    NormalFormIffFixed(NormalizeText(text));
  }

  // ----- What normalisation keeps: the words and the line breaks between them -----

  /** Puts one character in front of a skeleton, merging it into a leading space or break. */
  function Press(c: char, t: string): string {
    if IsBreak(c) then
      if t == "" || t[0] == '\n' then t
      else if t[0] == ' ' then "\n" + t[1..]
      else "\n" + t
    else if IsSpace(c) then
      if t == "" || t[0] == '\n' || t[0] == ' ' then t else " " + t
    else [c] + t
  }

  function PressAll(s: string, t: string): string {
    if s == "" then t else Press(s[0], PressAll(s[1..], t))
  }

  function DropLeadingSpace(t: string): string {
    if t != "" && IsSpace(t[0]) then t[1..] else t
  }

  /** The words of `s` with one newline between words on different lines and one space between others. */
  function Skeleton(s: string): string {
    DropLeadingSpace(PressAll(s, ""))
  }

  lemma {:induction false} PressAllAppend(a: string, b: string, t: string)
    ensures PressAll(a + b, t) == PressAll(a, PressAll(b, t))
  {
    if a == "" {
      assert a + b == b;
    } else {
      assert (a + b)[1..] == a[1..] + b;
      PressAllAppend(a[1..], b, t);
    }
  }

  lemma {:induction false} PressRun(s: string, k: nat, t: string, p: char -> bool)
    requires 0 < k <= |s| && forall i | 0 <= i < k :: p(s[i])
    requires (forall c :: p(c) ==> IsBlank(c)) || (forall c :: p(c) ==> IsBreak(c))
    ensures PressAll(s, t) == Press(s[0], PressAll(s[k..], t))
  {
    if k > 1 {
      PressRun(s[1..], k - 1, t, p);
      assert s[1..][k - 1..] == s[k..];
    }
  }

  lemma {:induction false} UnixBreaksKeeps(s: string)
    ensures PressAll(UnixBreaks(s), "") == PressAll(s, "")
  {
    if s == "" {
    } else if s[0] == '\r' {
      var k := if |s| > 1 && s[1] == '\n' then 2 else 1;
      UnixBreaksKeeps(s[k..]);
      PressRun(s, k, "", IsBreak);
      PressAllAppend("\n", UnixBreaks(s[k..]), "");
    } else {
      UnixBreaksKeeps(s[1..]);
    }
  }

  lemma {:induction false} SqueezeBlanksKeeps(s: string)
    ensures PressAll(SqueezeBlanks(s), "") == PressAll(s, "")
  {
    if s == "" {
    } else if IsBlank(s[0]) {
      var k := Run(s, IsBlank);
      SqueezeBlanksKeeps(s[k..]);
      PressRun(s, k, "", IsBlank);
      PressAllAppend(" ", SqueezeBlanks(s[k..]), "");
    } else {
      SqueezeBlanksKeeps(s[1..]);
    }
  }

  lemma {:induction false} SqueezeNewlinesKeeps(s: string)
    ensures PressAll(SqueezeNewlines(s), "") == PressAll(s, "")
  {
    if s == "" {
    } else if s[0] == '\n' {
      var k := Run(s, IsNewline);
      var kept := if k >= 3 then "\n\n" else s[..k];
      var rest := SqueezeNewlines(s[k..]);
      SqueezeNewlinesKeeps(s[k..]);
      PressRun(s, k, "", IsNewline);
      PressRun(kept + rest, |kept|, "", IsNewline);
      assert (kept + rest)[|kept|..] == rest;
    } else {
      SqueezeNewlinesKeeps(s[1..]);
    }
  }

  lemma {:induction false} PressTrailingSpace(s: string)
    requires AllSpace(s)
    ensures PressAll(s, "") == ""
  {
    if s != "" {
      PressTrailingSpace(s[1..]);
    }
  }

  lemma {:induction false} PressLeadingSpace(s: string, t: string)
    requires AllSpace(s)
    requires t != "" && IsSpace(t[0]) ==> t[0] == ' ' || t[0] == '\n'
    ensures DropLeadingSpace(PressAll(s, t)) == DropLeadingSpace(t)
    ensures PressAll(s, t) != "" && IsSpace(PressAll(s, t)[0]) ==> PressAll(s, t)[0] == ' ' || PressAll(s, t)[0] == '\n'
  {
    if s != "" {
      PressLeadingSpace(s[1..], t);
    }
  }

  lemma {:induction false} PressAllHead(s: string)
    ensures PressAll(s, "") != "" && IsSpace(PressAll(s, "")[0]) ==> PressAll(s, "")[0] == ' ' || PressAll(s, "")[0] == '\n'
  {
    if s != "" {
      PressAllHead(s[1..]);
    }
  }

  lemma StripKeeps(s: string)
    ensures Skeleton(Strip(s)) == Skeleton(s)
  {
    var a, b := StripSplits(s);
    assert s == s[..a] + (s[a..b] + s[b..]);
    PressAllAppend(s[..a], s[a..b] + s[b..], "");
    PressAllAppend(s[a..b], s[b..], "");
    PressTrailingSpace(s[b..]);
    PressAllHead(s[a..b]);
    PressLeadingSpace(s[..a], PressAll(s[a..b], ""));
  }

  /** Normalisation loses no word and neither makes nor removes a line break between words. */
  lemma NormalizeKeepsSkeleton(text: string)
    ensures Skeleton(NormalizeText(text)) == Skeleton(text)
  {
    StripKeeps(SqueezeNewlines(SqueezeBlanks(UnixBreaks(text))));
    SqueezeNewlinesKeeps(SqueezeBlanks(UnixBreaks(text)));
    SqueezeBlanksKeeps(UnixBreaks(text));
    UnixBreaksKeeps(text);
  }

  function Repeat(c: char, k: nat): string {
    seq(k, i => c)
  }

  /** Rewriting newline runs may be done piecewise wherever the cut is not inside a run. */
  lemma {:induction false} SqueezeNewlinesSplit(a: string, b: string)
    requires a != "" ==> a[|a| - 1] != '\n'
    ensures SqueezeNewlines(a + b) == SqueezeNewlines(a) + SqueezeNewlines(b)
    decreases |a|
  {
    var s := a + b;
    if a == "" {
      assert s == b;
    } else {
      var r := if a[0] == '\n' then Run(a, IsNewline) else 1;
      var kept := if r >= 3 then "\n\n" else a[..r];
      if a[0] == '\n' {
        RunIs(s, IsNewline, r);
      }
      assert s[r..] == a[r..] + b && s[..r] == a[..r];
      assert SqueezeNewlines(s) == kept + SqueezeNewlines(s[r..]);
      assert SqueezeNewlines(a) == kept + SqueezeNewlines(a[r..]);
      SqueezeNewlinesSplit(a[r..], b);
      Regroup(kept, SqueezeNewlines(a[r..]), SqueezeNewlines(b));
    }
  }

  lemma SqueezeNewlineRun(k: nat, b: string)
    requires b != "" ==> b[0] != '\n'
    ensures SqueezeNewlines(Repeat('\n', k) + b) == Repeat('\n', Min(k, 2)) + SqueezeNewlines(b)
  {
    var s := Repeat('\n', k) + b;
    if k == 0 {
      assert s == b;
    } else {
      assert forall i | 0 <= i < k :: s[i] == '\n';
      RunIs(s, IsNewline, k);
      assert s[k..] == b && s[..k] == Repeat('\n', k);
      assert k >= 3 ==> "\n\n" == Repeat('\n', Min(k, 2));
    }
  }

  /** A maximal run of `k` newlines becomes a run of `min(k, 2)`, so paragraph breaks stay apart from line breaks. */
  lemma NewlineRunExact(a: string, k: nat, b: string)
    requires a != "" ==> a[|a| - 1] != '\n'
    requires b != "" ==> b[0] != '\n'
    ensures SqueezeNewlines(a + Repeat('\n', k) + b) == SqueezeNewlines(a) + Repeat('\n', Min(k, 2)) + SqueezeNewlines(b)
  {
    assert a + Repeat('\n', k) + b == a + (Repeat('\n', k) + b);
    SqueezeNewlinesSplit(a, Repeat('\n', k) + b);
    SqueezeNewlineRun(k, b);
  }

  // ----- What normalisation keeps: every character that is not a space -----

  lemma InkOfPress(c: char, t: string)
    ensures Ink(Press(c, t)) == Ink([c]) + Ink(t)
  {
    assert [c][1..] == "";
    InkAppend([c], t);
    if t != "" && IsSpace(t[0]) {
      assert Ink(t) == Ink(t[1..]);
    }
    assert ("\n" + t)[1..] == t && (" " + t)[1..] == t;
    if t != "" {
      assert ("\n" + t[1..])[1..] == t[1..];
    }
  }

  lemma {:induction false} InkOfPressAll(s: string)
    ensures Ink(PressAll(s, "")) == Ink(s)
  {
    if s != "" {
      InkOfPressAll(s[1..]);
      InkOfPress(s[0], PressAll(s[1..], ""));
      InkAppend([s[0]], s[1..]);
      assert s == [s[0]] + s[1..];
    }
  }

  lemma InkOfSkeleton(s: string)
    ensures Ink(Skeleton(s)) == Ink(s)
  {
    InkOfPressAll(s);
  }

  lemma NormalizeKeepsInk(text: string)
    ensures Ink(NormalizeText(text)) == Ink(text)
  {
    NormalizeKeepsSkeleton(text);
    InkOfSkeleton(text);
    InkOfSkeleton(NormalizeText(text));
  }

  // ----- The first two rewrites, exactly -----

  /** Rewriting line breaks may be done piecewise wherever the cut is not inside a "\r\n". */
  lemma {:induction false} UnixBreaksSplit(a: string, b: string)
    requires !(a != "" && b != "" && a[|a| - 1] == '\r' && b[0] == '\n')
    ensures UnixBreaks(a + b) == UnixBreaks(a) + UnixBreaks(b)
  {
    var s := a + b;
    if a == "" {
      assert s == b;
    } else {
      var k := if a[0] == '\r' && |a| > 1 && a[1] == '\n' then 2 else 1;
      var kept := if a[0] == '\r' then "\n" else [a[0]];
      assert s[k..] == a[k..] + b;
      assert UnixBreaks(s) == kept + UnixBreaks(s[k..]);
      assert UnixBreaks(a) == kept + UnixBreaks(a[k..]);
      UnixBreaksSplit(a[k..], b);
      Regroup(kept, UnixBreaks(a[k..]), UnixBreaks(b));
    }
  }

  /** Each "\r\n", and each '\r' by itself, becomes one newline, wherever it stands. */
  lemma LineBreaksExact(a: string, b: string)
    ensures UnixBreaks(a + "\r\n" + b) == UnixBreaks(a) + "\n" + UnixBreaks(b)
    ensures b == "" || b[0] != '\n' ==> UnixBreaks(a + "\r" + b) == UnixBreaks(a) + "\n" + UnixBreaks(b)
  {
    Regroup(a, "\r\n", b);
    UnixBreaksSplit(a, "\r\n" + b);
    assert ("\r\n" + b)[2..] == b;
    Regroup(UnixBreaks(a), "\n", UnixBreaks(b));
    Regroup(a, "\r", b);
    UnixBreaksSplit(a, "\r" + b);
    assert ("\r" + b)[1..] == b;
  }

  /** Rewriting blank runs may be done piecewise wherever the cut is not inside a run. */
  lemma {:induction false} SqueezeBlanksSplit(a: string, b: string)
    requires a != "" ==> !IsBlank(a[|a| - 1])
    ensures SqueezeBlanks(a + b) == SqueezeBlanks(a) + SqueezeBlanks(b)
    decreases |a|
  {
    var s := a + b;
    if a == "" {
      assert s == b;
    } else {
      var r := if IsBlank(a[0]) then Run(a, IsBlank) else 1;
      var kept := if IsBlank(a[0]) then " " else [a[0]];
      if IsBlank(a[0]) {
        RunIs(s, IsBlank, r);
      }
      assert s[r..] == a[r..] + b;
      assert SqueezeBlanks(s) == kept + SqueezeBlanks(s[r..]);
      assert SqueezeBlanks(a) == kept + SqueezeBlanks(a[r..]);
      SqueezeBlanksSplit(a[r..], b);
      Regroup(kept, SqueezeBlanks(a[r..]), SqueezeBlanks(b));
    }
  }

  /** Each maximal run of spaces and tabs becomes one space. */
  lemma BlankRunExact(a: string, run: string, b: string)
    requires a != "" ==> !IsBlank(a[|a| - 1])
    requires run != "" && (forall i | 0 <= i < |run| :: IsBlank(run[i])) && (b != "" ==> !IsBlank(b[0]))
    ensures SqueezeBlanks(a + run + b) == SqueezeBlanks(a) + " " + SqueezeBlanks(b)
  {
    var s := run + b;
    Regroup(a, run, b);
    SqueezeBlanksSplit(a, s);
    RunIs(s, IsBlank, |run|);
    assert s[|run|..] == b;
    Regroup(SqueezeBlanks(a), " ", SqueezeBlanks(b));
  }
}
