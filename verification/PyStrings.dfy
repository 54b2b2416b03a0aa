/** The Python string operations the retrieval service is written with, on strings of code points. */
module PyStrings {

  /** The characters `str.strip` removes. */
  predicate IsSpace(c: char) {
    || '\t' <= c <= '\r'
    || '\U{001C}' <= c <= ' '
    || c == '\U{0085}' || c == '\U{00A0}' || c == '\U{1680}'
    || '\U{2000}' <= c <= '\U{200A}'
    || c == '\U{2028}' || c == '\U{2029}' || c == '\U{202F}' || c == '\U{205F}' || c == '\U{3000}'
  }

  function LStrip(s: string): string {
    if s != "" && IsSpace(s[0]) then LStrip(s[1..]) else s
  }

  function RStrip(s: string): string {
    if s != "" && IsSpace(s[|s| - 1]) then RStrip(s[..|s| - 1]) else s
  }

  /** `s.strip()` */
  function Strip(s: string): string {
    RStrip(LStrip(s))
  }

  /** No space at either end. */
  predicate Trimmed(s: string) {
    s != "" ==> !IsSpace(s[0]) && !IsSpace(s[|s| - 1])
  }

  predicate AllSpace(s: string) {
    forall i | 0 <= i < |s| :: IsSpace(s[i])
  }

  lemma {:induction false} LStripSplits(s: string) returns (a: nat)
    ensures a <= |s| && LStrip(s) == s[a..] && AllSpace(s[..a])
    ensures a < |s| ==> !IsSpace(s[a])
  {
    if s != "" && IsSpace(s[0]) {
      var a' := LStripSplits(s[1..]);
      a := a' + 1;
      assert s[1..][a'..] == s[a..];
      assert forall i | 0 < i < a :: s[i] == s[1..][..a'][i - 1];
    } else {
      a := 0;
    }
  }

  lemma {:induction false} RStripSplits(s: string) returns (b: nat)
    ensures b <= |s| && RStrip(s) == s[..b] && AllSpace(s[b..])
    ensures b > 0 ==> !IsSpace(s[b - 1])
  {
    if s != "" && IsSpace(s[|s| - 1]) {
      b := RStripSplits(s[..|s| - 1]);
      assert s[..|s| - 1][..b] == s[..b];
      assert forall i | b <= i < |s| - 1 :: s[i] == s[..|s| - 1][b..][i - b];
    } else {
      b := |s|;
    }
  }

  /** Stripping cuts a run of spaces off each end and nothing else. */
  lemma StripSplits(s: string) returns (a: nat, b: nat)
    ensures a <= b <= |s| && Strip(s) == s[a..b]
    ensures AllSpace(s[..a]) && AllSpace(s[b..])
    ensures Trimmed(Strip(s))
  {
    a := LStripSplits(s);
    var b' := RStripSplits(s[a..]);
    b := a + b';
    assert s[a..][..b'] == s[a..b];
    assert s[a..][b'..] == s[b..];
    if b' > 0 {
      assert s[a..b][0] == s[a] && s[a..b][|s[a..b]| - 1] == s[a..][b' - 1];
    }
  }

  lemma StripOfTrimmed(s: string)
    requires Trimmed(s)
    ensures Strip(s) == s
  {
  }

  lemma StripTrims(s: string)
    ensures Trimmed(Strip(s)) && |Strip(s)| <= |s|
    ensures Strip(s) == "" <==> AllSpace(s)
  {
    var a, b := StripSplits(s);
    if Strip(s) == "" {
      assert s == s[..a] + s[b..];
    } else {
      assert Strip(s)[0] == s[a];
    }
  }

  /** `sep.join(parts)` */
  function Join(parts: seq<string>, sep: string): string {
    if |parts| == 0 then ""
    else if |parts| == 1 then parts[0]
    else parts[0] + sep + Join(parts[1..], sep)
  }

  /** `"".join(parts)` */
  function Concat(parts: seq<string>): string {
    if |parts| == 0 then "" else parts[0] + Concat(parts[1..])
  }

  lemma {:induction false} ConcatAppend(a: seq<string>, b: seq<string>)
    ensures Concat(a + b) == Concat(a) + Concat(b)
  {
    if a == [] {
      assert a + b == b;
    } else {
      assert (a + b)[1..] == a[1..] + b;
      ConcatAppend(a[1..], b);
    }
  }

  lemma ConcatSnoc(parts: seq<string>, part: string)
    ensures Concat(parts + [part]) == Concat(parts) + part
  {
    ConcatAppend(parts, [part]);
    assert Concat([part]) == part + Concat([]);
  }

  lemma {:induction false} JoinAppend(a: seq<string>, b: seq<string>, sep: string)
    requires a != [] && b != []
    ensures Join(a + b, sep) == Join(a, sep) + sep + Join(b, sep)
  {
    assert (a + b)[1..] == a[1..] + b;
    if |a| > 1 {
      JoinAppend(a[1..], b, sep);
    } else {
      assert a + b == [a[0]] + b;
    }
  }

  /** A piece of text that can be joined without `strip` noticing. */
  predicate Solid(s: string) {
    s != "" && Trimmed(s)
  }

  predicate AllSolid(parts: seq<string>) {
    forall i | 0 <= i < |parts| :: Solid(parts[i])
  }

  lemma {:induction false} JoinSolid(parts: seq<string>, sep: string)
    requires parts != [] && AllSolid(parts)
    ensures Solid(Join(parts, sep))
    ensures Join(parts, sep)[0] == parts[0][0]
  {
    if |parts| > 1 {
      JoinSolid(parts[1..], sep);
      var tail := Join(parts[1..], sep);
      var whole := Join(parts, sep);
      assert whole[|whole| - 1] == tail[|tail| - 1];
    }
  }

  /** The characters of `s` that are not spaces, in order. */
  function Ink(s: string): string {
    if s == "" then ""
    else if IsSpace(s[0]) then Ink(s[1..])
    else [s[0]] + Ink(s[1..])
  }

  lemma {:induction false} InkAppend(a: string, b: string)
    ensures Ink(a + b) == Ink(a) + Ink(b)
  {
    if a == "" {
      assert a + b == b;
    } else {
      assert (a + b)[1..] == a[1..] + b;
      InkAppend(a[1..], b);
    }
  }

  lemma {:induction false} InkOfSpace(s: string)
    requires AllSpace(s)
    ensures Ink(s) == ""
  {
    if s != "" {
      InkOfSpace(s[1..]);
    }
  }

  lemma InkOfStrip(s: string)
    ensures Ink(Strip(s)) == Ink(s)
  {
    var a, b := StripSplits(s);
    assert s == s[..a] + s[a..b] + s[b..];
    InkAppend(s[..a] + s[a..b], s[b..]);
    InkAppend(s[..a], s[a..b]);
    InkOfSpace(s[..a]);
    InkOfSpace(s[b..]);
  }

  lemma InkOfSpaces(sep: string, s: string)
    requires AllSpace(sep)
    ensures Ink(sep + s) == Ink(s)
  {
    InkAppend(sep, s);
    InkOfSpace(sep);
  }

  /** Joining with space adds no ink. */
  lemma {:induction false} InkOfJoin(parts: seq<string>, sep: string)
    requires AllSpace(sep)
    ensures Ink(Join(parts, sep)) == Ink(Concat(parts))
  {
    if |parts| == 1 {
      assert Concat(parts) == parts[0] + Concat(parts[1..]) == parts[0];
    } else if |parts| > 1 {
      var tail := Join(parts[1..], sep);
      InkOfJoin(parts[1..], sep);
      assert parts[0] + sep + tail == parts[0] + (sep + tail);
      InkAppend(parts[0], sep + tail);
      InkOfSpaces(sep, tail);
      InkAppend(parts[0], Concat(parts[1..]));
    }
  }

  lemma InkOfConcat(a: seq<string>, b: seq<string>)
    ensures Ink(Concat(a + b)) == Ink(Concat(a)) + Ink(Concat(b))
  {
    ConcatAppend(a, b);
    InkAppend(Concat(a), Concat(b));
  }

  lemma InkOfCons(s: string, parts: seq<string>)
    ensures Ink(Concat([s] + parts)) == Ink(s) + Ink(Concat(parts))
  {
    assert ([s] + parts)[1..] == parts;
    InkAppend(s, Concat(parts));
  }

  function ClampIndex(i: int, n: nat): (r: nat)
    ensures r <= n
  {
    if i + n < 0 then 0 else if i < 0 then n + i else if i > n then n else i
  }

  /** `s[start:end]`, negative indices counting from the end. */
  function Slice(s: string, start: int, end: int): string {
    var a, b := ClampIndex(start, |s|), ClampIndex(end, |s|);
    if a <= b then s[a..b] else ""
  }

  function Max(a: int, b: int): int {
    if a >= b then a else b
  }

  function Min(a: int, b: int): int {
    if a <= b then a else b
  }
}
