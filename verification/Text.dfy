/** The text normalisation of reviewed manifests: surrounding white space is stripped and
    digests are case-folded. */
module Text {

  /** The white space of Unicode, as `str.strip` removes it. */
  predicate IsSpace(c: char) {
    || '\t' <= c <= '\r' || '\U{1C}' <= c <= ' ' || c == '\U{85}' || c == '\U{A0}' || c == '\U{1680}'
    || '\U{2000}' <= c <= '\U{200A}' || c == '\U{2028}' || c == '\U{2029}' || c == '\U{202F}' || c == '\U{205F}' || c == '\U{3000}'
  }

  predicate Blank(s: string) { forall i | 0 <= i < |s| :: IsSpace(s[i]) }

  function StripLeft(s: string): string {
    if s != [] && IsSpace(s[0]) then StripLeft(s[1..]) else s
  }

  function StripRight(s: string): string {
    if s != [] && IsSpace(s[|s| - 1]) then StripRight(s[..|s| - 1]) else s
  }

  function Strip(s: string): string { StripRight(StripLeft(s)) }

  predicate Trimmed(s: string) { s == [] || (!IsSpace(s[0]) && !IsSpace(s[|s| - 1])) }

  lemma {:induction false} StripLeftTrims(s: string)
    ensures StripLeft(s) == [] || !IsSpace(StripLeft(s)[0])
  {
    if s != [] && IsSpace(s[0]) { StripLeftTrims(s[1..]); }
  }

  lemma {:induction false} StripRightTrims(s: string)
    ensures StripRight(s) <= s
    ensures StripRight(s) == [] || !IsSpace(StripRight(s)[|StripRight(s)| - 1])
  {
    if s != [] && IsSpace(s[|s| - 1]) { StripRightTrims(s[..|s| - 1]); }
  }

  /** Stripping leaves trimmed text, and trimmed text as it is. */
  lemma StripTrims(s: string)
    ensures Trimmed(Strip(s)) && Strip(Strip(s)) == Strip(s)
  {
    StripLeftTrims(s);
    StripRightTrims(StripLeft(s));
    TrimmedStays(Strip(s));
  }

  /** Stripping takes off white space at both ends and nothing else. */
  lemma StripMeans(s: string) returns (left: string, right: string)
    ensures s == left + Strip(s) + right && Blank(left) && Blank(right) && Trimmed(Strip(s))
  {
    left := StripLeftTakes(s);
    right := StripRightTakes(StripLeft(s));
    StripTrims(s);
  }

  lemma {:induction false} StripLeftTakes(s: string) returns (left: string)
    ensures s == left + StripLeft(s) && Blank(left)
  {
    left := [];
    if s != [] && IsSpace(s[0]) {
      left := StripLeftTakes(s[1..]);
      left := [s[0]] + left;
    }
  }

  lemma {:induction false} StripRightTakes(s: string) returns (right: string)
    ensures s == StripRight(s) + right && Blank(right)
  {
    right := [];
    if s != [] && IsSpace(s[|s| - 1]) {
      right := StripRightTakes(s[..|s| - 1]);
      right := right + [s[|s| - 1]];
    }
  }

  /** Folding text of the ASCII range puts its capital letters in lower case. */
  lemma {:induction false} FoldMeans(s: string)
    requires forall i :: 0 <= i < |s| ==> s[i] < '\U{80}'
    ensures |Fold(s)| == |s|
    ensures forall i :: 0 <= i < |s| ==> Fold(s)[i] == if 'A' <= s[i] <= 'Z' then (s[i] as int + 32) as char else s[i]
  {
    if s != [] { FoldMeans(s[1..]); }
  }

  lemma TrimmedStays(s: string)
    requires Trimmed(s)
    ensures Strip(s) == s
  {
  }

  /** Case folding, as far as a digest can tell: beside the capital letters only the ligature ff
      folds to hexadecimal digits, and every other character folds to one that is none. */
  function FoldOne(c: char): string {
    if 'A' <= c <= 'Z' then [(c as int + 32) as char] else if c == '\U{FB00}' then "ff" else [c]
  }

  function Fold(s: string): string { if s == [] then [] else FoldOne(s[0]) + Fold(s[1..]) }

  predicate IsSha256(s: string) {
    |s| == 64 && forall i | 0 <= i < |s| :: IsHex(s[i])
  }

  predicate Digits(s: string) { s != [] && forall i | 0 <= i < |s| :: '0' <= s[i] <= '9' }

  predicate IsHex(c: char) { '0' <= c <= '9' || 'a' <= c <= 'f' }

  lemma {:induction false} FoldStays(s: string)
    requires forall i :: 0 <= i < |s| ==> IsHex(s[i])
    ensures Fold(s) == s
  {
    if s != [] { FoldStays(s[1..]); }
  }

  /** A well-formed digest is its own normal form. */
  lemma ShaStays(s: string)
    requires IsSha256(s)
    ensures Fold(Strip(s)) == s
  {
    TrimmedStays(s);
    FoldStays(s);
  }
}
