/** Three codes written one after the other with a mark between each two, and when such a text reads in two ways. */
module MarkedText {
  import opened Decimal
  import opened GoStrings
  import opened Sequences

  datatype Codes = Codes(first: string, second: string, third: string)

  /** The codes with the mark `m` after the first and `n` after the second. */
  function TextOf(k: Codes, m: string, n: string): string {
    k.first + m + k.second + n + k.third
  }

  /** No space at either end. */
  predicate Clean(s: string) {
    s != "" ==> !IsSpace(s[0]) && !IsSpace(s[|s| - 1])
  }

  predicate AllClean(k: Codes) {
    Clean(k.first) && Clean(k.second) && Clean(k.third)
  }

  /** A separator at the beginning and nowhere else, and no space at the end. */
  predicate IsMark(m: string) {
    |m| >= 2 && m[0] == '|' && Free(m[1..], '|') && !IsSpace(m[|m| - 1])
  }

  /** Two marks that can be told apart by what follows the separator. */
  predicate Marks(m: string, n: string) {
    IsMark(m) && IsMark(n) && m[1] != n[1]
  }

  predicate OccursAt(s: string, mark: string, i: nat) {
    i + |mark| <= |s| && s[i..i + |mark|] == mark
  }

  /** The mark occurs in the code with no space right before or after it. */
  ghost predicate Splittable(code: string, mark: string) {
    exists i: nat :: OccursAt(code, mark, i) && Clean(code[..i]) && Clean(code[i + |mark|..])
  }

  /** Some code holds a mark at which it could be cut in two. */
  ghost predicate Cuttable(k: Codes, m: string, n: string) {
    Splittable(k.first, m) || Splittable(k.second, m) || Splittable(k.second, n) || Splittable(k.third, n)
  }

  // ----- Two readings differ only if a code can be cut -----

  lemma MarkBody(s: string, m: string, i: nat)
    requires IsMark(m) && OccursAt(s, m, i)
    ensures s[i] == '|' && s[i + 1] == m[1] && forall k | i < k < i + |m| :: s[k] != '|'
  {
    var at := s[i..i + |m|];
    assert s[i] == at[0] && s[i + 1] == at[1];
    forall k | i < k < i + |m| ensures s[k] != '|' {
      assert s[k] == at[k - i] == m[1..][k - i - 1];
    }
  }

  /** Two occurrences of marks do not overlap. */
  lemma MarksApart(s: string, m: string, i: nat, n: string, j: nat)
    requires IsMark(m) && IsMark(n) && OccursAt(s, m, i) && OccursAt(s, n, j) && i < j
    ensures i + |m| <= j
  {
    MarkBody(s, m, i);
    MarkBody(s, n, j);
  }

  lemma MarksDiffer(s: string, m: string, i: nat, n: string, j: nat)
    requires Marks(m, n) && OccursAt(s, m, i) && OccursAt(s, n, j)
    ensures i != j
  {
    MarkBody(s, m, i);
    MarkBody(s, n, j);
  }

  /** No space stands right before or right after an occurrence. */
  predicate Bare(s: string, m: string, i: nat) {
    && i + |m| <= |s|
    && (i > 0 ==> !IsSpace(s[i - 1]))
    && (i + |m| < |s| ==> !IsSpace(s[i + |m|]))
  }

  lemma SliceOfSlice(s: string, lo: nat, hi: nat, i: nat, j: nat)
    requires lo <= i <= j <= hi <= |s|
    ensures s[lo..hi][i - lo..j - lo] == s[i..j]
  {
    var inner, outer := s[lo..hi][i - lo..j - lo], s[i..j];
    assert |inner| == |outer|;
    assert forall k | 0 <= k < |outer| :: inner[k] == outer[k];
  }

  lemma BareSliceClean(s: string, i: nat, j: nat)
    requires i <= j <= |s| && (i < j ==> !IsSpace(s[i]) && !IsSpace(s[j - 1]))
    ensures Clean(s[i..j])
  {
    assert i < j ==> s[i..j][0] == s[i] && s[i..j][j - i - 1] == s[j - 1];
  }

  /** A bare mark inside one of the codes splits it. */
  lemma SplitsPart(s: string, lo: nat, hi: nat, m: string, i: nat)
    requires lo <= i && i + |m| <= hi <= |s| && OccursAt(s, m, i) && Bare(s, m, i) && Clean(s[lo..hi])
    ensures Splittable(s[lo..hi], m)
  {
    var code, at := s[lo..hi], i - lo;
    assert lo < hi ==> code[0] == s[lo] && code[hi - lo - 1] == s[hi - 1];
    assert OccursAt(code, m, at) by {
      SliceOfSlice(s, lo, hi, i, i + |m|);
    }
    assert Clean(code[..at]) by {
      SliceOfSlice(s, lo, hi, lo, i);
      BareSliceClean(s, lo, i);
    }
    assert Clean(code[at + |m|..]) by {
      SliceOfSlice(s, lo, hi, i + |m|, hi);
      BareSliceClean(s, i + |m|, hi);
    }
  }

  /** The marks stand in `w` at `p` and `r`, with no space beside them. */
  predicate Placed(w: string, m: string, n: string, p: nat, r: nat) {
    && p + |m| <= r && r + |n| <= |w|
    && OccursAt(w, m, p) && OccursAt(w, n, r) && Bare(w, m, p) && Bare(w, n, r)
  }

  /** The codes of `w` when its marks stand at `p` and `r`. */
  predicate Holds(w: string, m: string, n: string, p: nat, r: nat, k: Codes) {
    && p + |m| <= r && r + |n| <= |w|
    && w[0..p] == k.first && w[p + |m|..r] == k.second && w[r + |n|..|w|] == k.third
  }

  /** Where the second mark of a text stands; the first stands at `|k.first|`. */
  function Second(k: Codes, m: string): nat {
    |k.first| + |m| + |k.second|
  }

  lemma MiddleAt(w: string, a: string, b: string, c: string)
    requires w == a + b + c
    ensures |a| + |b| <= |w| && w[|a|..|a| + |b|] == b
  {
  }

  lemma SecondHalf(k: Codes, m: string, n: string)
    ensures var w := TextOf(k, m, n);
            OccursAt(w, n, Second(k, m)) && w[Second(k, m) + |n|..|w|] == k.third
  {
    var w, front := TextOf(k, m, n), k.first + m + k.second;
    MiddleAt(w, front, n, k.third);
    assert w == front + n + k.third + "";
    MiddleAt(w, front + n, k.third, "");
  }

  lemma FirstHalf(k: Codes, m: string, n: string)
    ensures var w := TextOf(k, m, n);
            OccursAt(w, m, |k.first|) && |k.first| + |m| <= Second(k, m) <= |w|
            && w[0..|k.first|] == k.first && w[|k.first| + |m|..Second(k, m)] == k.second
  {
    var w, back := TextOf(k, m, n), n + k.third;
    Regroup(k.first + m + k.second, n, k.third);
    MiddleAt(w, k.first + m, k.second, back);
    Regroup(k.first + m, k.second, back);
    MiddleAt(w, k.first, m, k.second + back);
    Regroup(k.first, m, k.second + back);
    assert w == "" + k.first + (m + (k.second + back));
    MiddleAt(w, "", k.first, m + (k.second + back));
  }

  /** A mark between two codes is bare when what stands beyond them is no space. */
  lemma BareAt(w: string, m: string, lo: nat, i: nat, hi: nat)
    requires lo <= i && i + |m| <= hi <= |w| && Clean(w[lo..i]) && Clean(w[i + |m|..hi])
    requires (0 < lo ==> !IsSpace(w[lo - 1])) && (hi < |w| ==> !IsSpace(w[hi]))
    ensures Bare(w, m, i)
  {
    assert lo < i ==> w[lo..i][i - lo - 1] == w[i - 1];
    assert i + |m| < hi ==> w[i + |m|..hi][0] == w[i + |m|];
  }

  lemma MarkEnds(w: string, m: string, i: nat)
    requires IsMark(m) && OccursAt(w, m, i)
    ensures !IsSpace(w[i]) && !IsSpace(w[i + |m| - 1])
  {
    assert w[i..i + |m|][0] == w[i] && w[i..i + |m|][|m| - 1] == w[i + |m| - 1];
  }

  /** A later place for the first mark splits the second code, which begins at `lo`, or goes with a later second mark. */
  lemma LaterFirstMark(w: string, m: string, n: string, lo: nat, r: nat, p': nat, r': nat)
    requires IsMark(m) && IsMark(n) && lo <= p' && p' + |m| <= r' && p' != r
    requires OccursAt(w, n, r) && OccursAt(w, m, p') && OccursAt(w, n, r') && Bare(w, m, p') && Bare(w, n, r')
    requires lo <= r && Clean(w[lo..r]) && Clean(w[r + |n|..|w|])
    ensures Splittable(w[lo..r], m) || Splittable(w[r + |n|..|w|], n)
  {
    if p' < r {
      MarksApart(w, m, p', n, r);
      SplitsPart(w, lo, r, m, p');
    } else {
      MarksApart(w, n, r, n, r');
      SplitsPart(w, r + |n|, |w|, n, r');
    }
  }

  /** A second place for the first mark splits a code of the first reading. */
  lemma OtherFirstMark(w: string, m: string, n: string, p: nat, r: nat, p': nat, r': nat)
    requires IsMark(m) && IsMark(n) && p != p' && p' != r && p + |m| <= r && p' + |m| <= r'
    requires OccursAt(w, m, p) && OccursAt(w, n, r)
    requires OccursAt(w, m, p') && OccursAt(w, n, r') && Bare(w, m, p') && Bare(w, n, r')
    requires Clean(w[0..p]) && Clean(w[p + |m|..r]) && Clean(w[r + |n|..|w|])
    ensures Splittable(w[0..p], m) || Splittable(w[p + |m|..r], m) || Splittable(w[r + |n|..|w|], n)
  {
    if p' < p {
      MarksApart(w, m, p', m, p);
      SplitsPart(w, 0, p, m, p');
    } else {
      MarksApart(w, m, p, m, p');
      LaterFirstMark(w, m, n, p + |m|, r, p', r');
    }
  }

  /** So does a second place for the second mark, the code before it beginning at `lo`. */
  lemma OtherSecondMark(w: string, n: string, lo: nat, r: nat, r': nat)
    requires IsMark(n) && lo <= r && lo <= r' && r != r' && OccursAt(w, n, r) && OccursAt(w, n, r') && Bare(w, n, r')
    requires Clean(w[lo..r]) && Clean(w[r + |n|..|w|])
    ensures Splittable(w[lo..r], n) || Splittable(w[r + |n|..|w|], n)
  {
    if r' < r {
      MarksApart(w, n, r', n, r);
      SplitsPart(w, lo, r, n, r');
    } else {
      MarksApart(w, n, r, n, r');
      SplitsPart(w, r + |n|, |w|, n, r');
    }
  }

  /** Other places for the marks split one of the codes. */
  lemma OtherPlaces(w: string, m: string, n: string, p: nat, r: nat, k: Codes, p': nat, r': nat)
    requires Marks(m, n) && AllClean(k) && Holds(w, m, n, p, r, k)
    requires Placed(w, m, n, p, r) && Placed(w, m, n, p', r') && (p, r) != (p', r')
    ensures Cuttable(k, m, n)
  {
    if p != p' {
      MarksDiffer(w, m, p', n, r);
      OtherFirstMark(w, m, n, p, r, p', r');
    } else {
      OtherSecondMark(w, n, p + |m|, r, r');
    }
  }

  lemma TextPlaced(w: string, k: Codes, m: string, n: string)
    requires w == TextOf(k, m, n) && AllClean(k) && IsMark(m) && IsMark(n)
    ensures Holds(w, m, n, |k.first|, Second(k, m), k) && Placed(w, m, n, |k.first|, Second(k, m))
  {
    var p, r := |k.first|, Second(k, m);
    FirstHalf(k, m, n);
    SecondHalf(k, m, n);
    MarkEnds(w, m, p);
    MarkEnds(w, n, r);
    BareAt(w, m, 0, p, r);
    BareAt(w, n, p + |m|, r, |w|);
  }

  lemma OtherReading(w: string, k: Codes, m: string, n: string, p': nat, r': nat, k': Codes)
    requires w == TextOf(k, m, n) && Marks(m, n) && AllClean(k)
    requires Placed(w, m, n, p', r') && Holds(w, m, n, p', r', k') && k != k'
    ensures Cuttable(k, m, n)
  {
    TextPlaced(w, k, m, n);
    OtherPlaces(w, m, n, |k.first|, Second(k, m), k, p', r');
  }

  /** Two readings of one text differ only if a code of the first can be cut. */
  lemma OtherReadingSplits(k: Codes, k': Codes, m: string, n: string)
    requires Marks(m, n) && AllClean(k) && AllClean(k') && TextOf(k, m, n) == TextOf(k', m, n) && k != k'
    ensures Cuttable(k, m, n)
  {
    var w := TextOf(k', m, n);
    TextPlaced(w, k', m, n);
    OtherReading(w, k, m, n, |k'.first|, Second(k', m), k');
  }

  // ----- And then there are two -----

  /** A code, split: what stands before the mark and after it. */
  lemma SplitCode(code: string, mark: string) returns (x: string, y: string)
    requires Splittable(code, mark)
    ensures code == x + mark + y && Clean(x) && Clean(y)
  {
    var i: nat :| OccursAt(code, mark, i) && Clean(code[..i]) && Clean(code[i + |mark|..]);
    x, y := code[..i], code[i + |mark|..];
  }

  lemma JoinedClean(x: string, m: string, y: string)
    requires Clean(x) && Clean(y) && IsMark(m)
    ensures Clean(x + m + y)
  {
    var s := x + m + y;
    assert s[0] == if x == "" then m[0] else x[0];
    assert s[|s| - 1] == if y == "" then m[|m| - 1] else y[|y| - 1];
  }

  lemma CutFirst(x: string, y: string, t: string, s: string, m: string, n: string)
    ensures TextOf(Codes(x, y + m + t, s), m, n) == TextOf(Codes(x + m + y, t, s), m, n)
  {
    Regroup(x + m, y + m, t);
    Regroup(x + m, y, m);
  }

  lemma CutSecond(c: string, x: string, y: string, s: string, m: string, n: string)
    ensures TextOf(Codes(c + m + x, y, s), m, n) == TextOf(Codes(c, x + m + y, s), m, n)
  {
    Regroup(c + m, x + m, y);
    Regroup(c + m, x, m);
  }

  lemma CutSecondLater(c: string, x: string, y: string, s: string, m: string, n: string)
    ensures TextOf(Codes(c, x, y + n + s), m, n) == TextOf(Codes(c, x + n + y, s), m, n)
  {
    var front := c + m + x + n;
    Regroup(front, y + n, s);
    Regroup(front, y, n);
    Regroup(c + m, x + n, y);
    Regroup(c + m, x, n);
  }

  lemma CutThird(c: string, t: string, x: string, y: string, m: string, n: string)
    ensures TextOf(Codes(c, t + n + x, y), m, n) == TextOf(Codes(c, t, x + n + y), m, n)
  {
    var front := c + m + t + n;
    Regroup(c + m, t + n, x);
    Regroup(c + m, t, n);
    Regroup(front, x + n, y);
    Regroup(front, x, n);
  }

  /** A code that can be cut gives another reading. */
  lemma SplitReadsOtherwise(k: Codes, m: string, n: string) returns (k': Codes)
    requires Marks(m, n) && AllClean(k) && Cuttable(k, m, n)
    ensures AllClean(k') && k' != k && TextOf(k', m, n) == TextOf(k, m, n)
  {
    var c, t, s := k.first, k.second, k.third;
    if Splittable(c, m) {
      var x, y := SplitCode(c, m);
      k' := Codes(x, y + m + t, s);
      JoinedClean(y, m, t);
      CutFirst(x, y, t, s, m, n);
      assert |k'.first| < |c|;
    } else if Splittable(t, m) {
      var x, y := SplitCode(t, m);
      k' := Codes(c + m + x, y, s);
      JoinedClean(c, m, x);
      CutSecond(c, x, y, s, m, n);
      assert |k'.second| < |t|;
    } else if Splittable(t, n) {
      var x, y := SplitCode(t, n);
      k' := Codes(c, x, y + n + s);
      JoinedClean(y, n, s);
      CutSecondLater(c, x, y, s, m, n);
      assert |k'.second| < |t|;
    } else {
      var x, y := SplitCode(s, n);
      k' := Codes(c, t + n + x, y);
      JoinedClean(t, n, x);
      CutThird(c, t, x, y, m, n);
      assert |k'.third| < |s|;
    }
  }

  lemma TrimmedIsClean(s: string)
    ensures Clean(TrimSpace(s))
    ensures Clean(s) ==> TrimSpace(s) == s
  {
    var a, b := TrimSpaceCuts(s);
    assert a < b ==> s[a..b][0] == s[a] && s[a..b][b - a - 1] == s[b - 1];
  }
}
