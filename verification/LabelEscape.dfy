/**
 deploy/observability/health-exporter/health_exporter.py, `label_escape` and `metric`, against a reader
 of the Prometheus text exposition format, version 0.0.4.
 */
module LabelEscape {
  import opened Decimal
  import opened Wrappers

  /** `s.replace(c, repl)` for a single character `c`. */
  function Replace(s: string, c: char, repl: string): string {
    if s == "" then "" else (if s[0] == c then repl else [s[0]]) + Replace(s[1..], c, repl)
  }

  /** `label_escape`: three whole-string replacements, the backslash first. */
  function LabelEscape(value: string): string {
    Replace(Replace(Replace(value, '\\', "\\\\"), '\n', "\\n"), '"', "\\\"")
  }

  function EscapeChar(c: char): string {
    match c
    case '\\' => "\\\\"
    case '\n' => "\\n"
    case '"' => "\\\""
    case _ => [c]
  }

  /** The escape character by character. */
  function Escape(value: string): string {
    if value == "" then "" else EscapeChar(value[0]) + Escape(value[1..])
  }

  lemma {:induction false} ReplaceAppend(a: string, b: string, c: char, repl: string)
    ensures Replace(a + b, c, repl) == Replace(a, c, repl) + Replace(b, c, repl)
  {
    if a == "" {
      assert a + b == b;
    } else {
      assert (a + b)[1..] == a[1..] + b;
      ReplaceAppend(a[1..], b, c, repl);
    }
  }

  lemma ReplaceShort(a: string, c: char, repl: string)
    requires 1 <= |a| <= 2
    ensures |a| == 1 ==> Replace(a, c, repl) == if a[0] == c then repl else a
    ensures |a| == 2 ==> Replace(a, c, repl) == (if a[0] == c then repl else [a[0]]) + (if a[1] == c then repl else [a[1]])
  {
    assert Replace(a[1..], c, repl) == if |a| == 1 then "" else (if a[1] == c then repl else [a[1]]) + Replace(a[1..][1..], c, repl);
  }

  lemma EscapeOneChar(c: char)
    ensures LabelEscape([c]) == EscapeChar(c)
  {
    ReplaceShort([c], '\\', "\\\\");
    var r1 := Replace([c], '\\', "\\\\");
    ReplaceShort(r1, '\n', "\\n");
    var r2 := Replace(r1, '\n', "\\n");
    ReplaceShort(r2, '"', "\\\"");
  }

  /** The three replacements together escape each character on its own. */
  lemma {:induction false} EscapesCharByChar(value: string)
    ensures LabelEscape(value) == Escape(value)
  {
    if value != "" {
      var head, tail := [value[0]], value[1..];
      assert value == head + tail;
      EscapeOneChar(value[0]);
      ReplaceAppend(head, tail, '\\', "\\\\");
      var h1, t1 := Replace(head, '\\', "\\\\"), Replace(tail, '\\', "\\\\");
      ReplaceAppend(h1, t1, '\n', "\\n");
      var h2, t2 := Replace(h1, '\n', "\\n"), Replace(t1, '\n', "\\n");
      ReplaceAppend(h2, t2, '"', "\\\"");
      EscapesCharByChar(tail);
    }
  }

  // ----- Reading label values back -----

  /** Reads a quoted value up to its closing quote: the value, and what follows the quote. */
  function ReadValue(s: string): Option<(string, string)>
    decreases |s|
  {
    if s == "" || s[0] == '\n' then None
    else if s[0] == '"' then Some(("", s[1..]))
    else if s[0] != '\\' then Prefixed(s[0], ReadValue(s[1..]))
    else if |s| == 1 then None
    else if s[1] == '\\' then Prefixed('\\', ReadValue(s[2..]))
    else if s[1] == 'n' then Prefixed('\n', ReadValue(s[2..]))
    else if s[1] == '"' then Prefixed('"', ReadValue(s[2..]))
    else None
  }

  function Prefixed(c: char, r: Option<(string, string)>): Option<(string, string)> {
    match r case None => None case Some((value, rest)) => Some(([c] + value, rest))
  }

  lemma ReadEscaped(c: char, tail: string)
    ensures ReadValue(EscapeChar(c) + tail) == Prefixed(c, ReadValue(tail))
  {
    var s := EscapeChar(c) + tail;
    assert s[|EscapeChar(c)|..] == tail;
  }

  /** Whatever the value, the reader gets it back, and stops at the quote the exporter wrote. */
  lemma {:induction false} ValueRoundTrip(value: string, rest: string)
    ensures ReadValue(LabelEscape(value) + "\"" + rest) == Some((value, rest))
  {
    EscapesCharByChar(value);
    EscapedRoundTrip(value, rest);
  }

  lemma {:induction false} EscapedRoundTrip(value: string, rest: string)
    ensures ReadValue(Escape(value) + "\"" + rest) == Some((value, rest))
  {
    if value == "" {
      assert Escape(value) + "\"" + rest == "\"" + rest;
      assert ("\"" + rest)[1..] == rest;
    } else {
      var tail := Escape(value[1..]) + "\"" + rest;
      EscapedRoundTrip(value[1..], rest);
      ReadEscaped(value[0], tail);
      assert Escape(value) + "\"" + rest == EscapeChar(value[0]) + tail;
      assert [value[0]] + value[1..] == value;
    }
  }

  /** No newline in what is written, so a value never ends its line. */
  lemma {:induction false} NoRawNewline(value: string)
    ensures Free(LabelEscape(value), '\n')
  {
    EscapesCharByChar(value);
    if value != "" {
      EscapesCharByChar(value[1..]);
      NoRawNewline(value[1..]);
    }
  }

  /** Different values are written differently. */
  lemma EscapeInjective(a: string, b: string)
    requires LabelEscape(a) == LabelEscape(b)
    ensures a == b
  {
    ValueRoundTrip(a, "");
    ValueRoundTrip(b, "");
  }

  // ----- Whole lines -----

  datatype Label = Label(name: string, value: string)

  predicate IsNameChar(c: char) {
    'a' <= c <= 'z' || 'A' <= c <= 'Z' || '0' <= c <= '9' || c == '_'
  }

  /** A label name of the format. */
  predicate IsName(s: string) {
    s != "" && !('0' <= s[0] <= '9') && forall i | 0 <= i < |s| :: IsNameChar(s[i])
  }

  function Written(pair: Label): string {
    pair.name + "=\"" + LabelEscape(pair.value) + "\""
  }

  /** The labels as written, joined by commas. */
  function RenderLabels(labels: seq<Label>): string {
    if labels == [] then ""
    else if |labels| == 1 then Written(labels[0])
    else Written(labels[0]) + "," + RenderLabels(labels[1..])
  }

  /** `metric(name, labels, value)`, `value` as printed. */
  function Metric(name: string, labels: seq<Label>, value: string): string {
    name + "{" + RenderLabels(labels) + "} " + value
  }

  function NameLength(s: string): (k: nat)
    ensures k <= |s| && forall i | 0 <= i < k :: IsNameChar(s[i])
    ensures k < |s| ==> !IsNameChar(s[k])
  {
    if s == "" || !IsNameChar(s[0]) then 0 else 1 + NameLength(s[1..])
  }

  /** Reads labels up to the closing brace: the labels, and what follows the brace. */
  function ReadLabels(s: string): Option<(seq<Label>, string)>
    decreases |s|
  {
    if s != "" && s[0] == '}' then Some(([], s[1..]))
    else
      var k := NameLength(s);
      if k + 2 > |s| || s[k..k + 2] != "=\"" then None
      else
        match ReadValue(s[k + 2..])
        case None => None
        case Some((value, rest)) =>
          var pair := Label(s[..k], value);
          if rest == "" || |rest| >= |s| then None
          else if rest[0] == '}' then Some(([pair], rest[1..]))
          else if rest[0] != ',' then None
          else
            match ReadLabels(rest[1..])
            case None => None
            case Some((labels, after)) => Some(([pair] + labels, after))
  }

  lemma {:induction false} NameLengthIs(s: string, k: nat)
    requires k < |s| && !IsNameChar(s[k]) && forall i | 0 <= i < k :: IsNameChar(s[i])
    ensures NameLength(s) == k
  {
    if k > 0 {
      NameLengthIs(s[1..], k - 1);
    }
  }

  lemma ReadOneLabel(pair: Label, rest: string)
    requires IsName(pair.name) && rest != ""
    ensures var s := pair.name + "=\"" + LabelEscape(pair.value) + "\"" + rest;
            && |rest| < |s| && s[0] != '}' && NameLength(s) == |pair.name| && |pair.name| + 2 <= |s|
            && s[..|pair.name|] == pair.name && s[|pair.name|..|pair.name| + 2] == "=\""
            && ReadValue(s[|pair.name| + 2..]) == Some((pair.value, rest))
  {
    var k := |pair.name|;
    var s := pair.name + "=\"" + LabelEscape(pair.value) + "\"" + rest;
    assert s[k + 2..] == LabelEscape(pair.value) + "\"" + rest;
    assert s[k] == '=';
    NameLengthIs(s, k);
    ValueRoundTrip(pair.value, rest);
  }

  lemma ReadStep(pair: Label, rest: string)
    requires IsName(pair.name) && rest != ""
    ensures rest[0] == '}' ==> ReadLabels(Written(pair) + rest) == Some(([pair], rest[1..]))
    ensures rest[0] == ',' && ReadLabels(rest[1..]).Some? ==>
              ReadLabels(Written(pair) + rest)
              == Some(([pair] + ReadLabels(rest[1..]).value.0, ReadLabels(rest[1..]).value.1))
  {
    ReadOneLabel(pair, rest);
    assert Label(pair.name, pair.value) == pair;
  }

  lemma RegroupAfter(first: string, rest: string, after: string)
    ensures first + "," + rest + "}" + after == first + ("," + (rest + "}" + after))
    ensures first + "}" + after == first + ("}" + after)
  {
  }

  lemma RenderFirst(labels: seq<Label>, after: string)
    requires labels != []
    ensures RenderLabels(labels) + "}" + after
         == Written(labels[0]) + if |labels| == 1 then "}" + after else "," + (RenderLabels(labels[1..]) + "}" + after)
  {
    RegroupAfter(Written(labels[0]), RenderLabels(labels[1..]), after);
  }

  /** A reader of the line gets back exactly the labels written, and stops at the brace that closes them. */
  lemma {:induction false} LabelsRoundTrip(labels: seq<Label>, after: string)
    requires forall i | 0 <= i < |labels| :: IsName(labels[i].name)
    ensures ReadLabels(RenderLabels(labels) + "}" + after) == Some((labels, after))
  {
    if labels == [] {
      assert RenderLabels(labels) + "}" + after == "}" + after;
      assert ("}" + after)[1..] == after;
    } else {
      RenderFirst(labels, after);
      assert [labels[0]] + labels[1..] == labels;
      if |labels| == 1 {
        ReadStep(labels[0], "}" + after);
        assert ("}" + after)[1..] == after && [labels[0]] == labels;
      } else {
        var tail := RenderLabels(labels[1..]) + "}" + after;
        LabelsRoundTrip(labels[1..], after);
        ReadStep(labels[0], "," + tail);
        assert ("," + tail)[1..] == tail;
      }
    }
  }

  /** A line is the metric name, a brace, labels a reader gets back up to their closing brace, a space and the value. */
  lemma MetricReads(name: string, labels: seq<Label>, value: string)
    requires forall i | 0 <= i < |labels| :: IsName(labels[i].name)
    ensures var line := Metric(name, labels, value);
            && |name| < |line| && line[..|name|] == name && line[|name|] == '{'
            && ReadLabels(line[|name| + 1..]) == Some((labels, " " + value))
  {
    var line := Metric(name, labels, value);
    LabelsRoundTrip(labels, " " + value);
    assert line == name + "{" + (RenderLabels(labels) + "}" + (" " + value));
    assert line[|name| + 1..] == RenderLabels(labels) + "}" + (" " + value);
  }

  /** A line determines its metric name, its labels and its value. */
  lemma MetricInjective(n: string, ls: seq<Label>, v: string, n': string, ls': seq<Label>, v': string)
    requires IsName(n) && IsName(n')
    requires forall i | 0 <= i < |ls| :: IsName(ls[i].name)
    requires forall i | 0 <= i < |ls'| :: IsName(ls'[i].name)
    requires Metric(n, ls, v) == Metric(n', ls', v')
    ensures n == n' && ls == ls' && v == v'
  {
    var t, t' := RenderLabels(ls) + "}" + (" " + v), RenderLabels(ls') + "}" + (" " + v');
    assert Metric(n, ls, v) == n + ['{'] + t && Metric(n', ls', v') == n' + ['{'] + t';
    FirstSeparator(n, t, n', t', '{');
    LabelsRoundTrip(ls, " " + v);
    LabelsRoundTrip(ls', " " + v');
    assert (" " + v)[1..] == v && (" " + v')[1..] == v';
  }
}
