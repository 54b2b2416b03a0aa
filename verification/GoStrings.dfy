/** The Go string operations shared by the services. */
module GoStrings {

  /** `unicode.IsSpace` */
  predicate IsSpace(c: char) {
    || '\t' <= c <= '\r'
    || c == ' ' || c == '\U{0085}' || c == '\U{00A0}' || c == '\U{1680}'
    || '\U{2000}' <= c <= '\U{200A}'
    || c == '\U{2028}' || c == '\U{2029}' || c == '\U{202F}' || c == '\U{205F}' || c == '\U{3000}'
  }

  /** `strings.TrimSpace` */
  function TrimSpace(s: string): string {
    if s == "" then ""
    else if IsSpace(s[0]) then TrimSpace(s[1..])
    else if IsSpace(s[|s| - 1]) then TrimSpace(s[..|s| - 1])
    else s
  }

  /** `s` is `s[a..b]` between spaces. */
  predicate SpacesAround(s: string, a: nat, b: nat) {
    && a <= b <= |s|
    && (forall i | 0 <= i < |s| && (i < a || b <= i) :: IsSpace(s[i]))
    && (a < b ==> !IsSpace(s[a]) && !IsSpace(s[b - 1]))
  }

  lemma SpaceInFront(s: string, a: nat, b: nat)
    requires s != "" && IsSpace(s[0]) && SpacesAround(s[1..], a, b)
    ensures SpacesAround(s, 1 + a, 1 + b) && s[1..][a..b] == s[1 + a..1 + b]
  {
    assert forall i | 1 <= i < |s| :: s[i] == s[1..][i - 1];
  }

  lemma SpaceBehind(s: string, a: nat, b: nat)
    requires s != "" && IsSpace(s[|s| - 1]) && SpacesAround(s[..|s| - 1], a, b)
    ensures SpacesAround(s, a, b) && s[..|s| - 1][a..b] == s[a..b]
  {
  }

  /** Trimming cuts a run of spaces off each end and nothing else. */
  lemma {:induction false} TrimSpaceCuts(s: string) returns (a: nat, b: nat)
    ensures SpacesAround(s, a, b) && TrimSpace(s) == s[a..b]
    decreases |s|
  {
    if s == "" {
      a, b := 0, 0;
    } else if IsSpace(s[0]) {
      a, b := TrimSpaceCuts(s[1..]);
      SpaceInFront(s, a, b);
      a, b := 1 + a, 1 + b;
    } else if IsSpace(s[|s| - 1]) {
      a, b := TrimSpaceCuts(s[..|s| - 1]);
      SpaceBehind(s, a, b);
    } else {
      a, b := 0, |s|;
    }
  }
}
