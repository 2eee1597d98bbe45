/** str.isspace() of one character, and str.strip(). */
module Whitespace {

  predicate IsSpace(c: char) {
    || c == ' ' || '\t' <= c <= '\r' || '\U{1c}' <= c <= '\U{1f}' || c == '\U{85}' || c == '\U{a0}'
    || c == '\U{1680}' || '\U{2000}' <= c <= '\U{200a}' || c == '\U{2028}' || c == '\U{2029}'
    || c == '\U{202f}' || c == '\U{205f}' || c == '\U{3000}'
  }

  lemma SpacesExact()
    ensures forall c :: IsSpace(c) <==>
      c in ['\t', '\n', '\U{b}', '\U{c}', '\r', '\U{1c}', '\U{1d}', '\U{1e}', '\U{1f}', ' ', '\U{85}', '\U{a0}',
        '\U{1680}', '\U{2000}', '\U{2001}', '\U{2002}', '\U{2003}', '\U{2004}', '\U{2005}', '\U{2006}', '\U{2007}',
        '\U{2008}', '\U{2009}', '\U{200a}', '\U{2028}', '\U{2029}', '\U{202f}', '\U{205f}', '\U{3000}']
  {}

  function Strip(s: string): string {
    if s != "" && IsSpace(s[0]) then Strip(s[1..])
    else if s != "" && IsSpace(s[|s| - 1]) then Strip(s[..|s| - 1])
    else s
  }

  lemma {:induction false} StripEnds(s: string)
    ensures Strip(s) != "" ==> !IsSpace(Strip(s)[0]) && !IsSpace(Strip(s)[|Strip(s)| - 1])
  {
    if s != "" && IsSpace(s[0]) {
      StripEnds(s[1..]);
    } else if s != "" && IsSpace(s[|s| - 1]) {
      StripEnds(s[..|s| - 1]);
    }
  }

  /** Nothing is stripped where neither end is blank. */
  lemma StripKeeps(s: string)
    requires s != "" && !IsSpace(s[0]) && !IsSpace(s[|s| - 1])
    ensures Strip(s) == s
  {}

  /** What is stripped is blank, and it is stripped from the two ends only. */
  lemma {:induction false} StripExact(s: string) returns (left: string, right: string)
    ensures s == left + Strip(s) + right
    ensures (forall i | 0 <= i < |left| :: IsSpace(left[i])) && (forall i | 0 <= i < |right| :: IsSpace(right[i]))
  {
    hide IsSpace;
    if s != "" && IsSpace(s[0]) {
      left, right := StripExact(s[1..]);
      assert s == [s[0]] + (left + Strip(s[1..]) + right);
      left := [s[0]] + left;
    } else if s != "" && IsSpace(s[|s| - 1]) {
      left, right := StripExact(s[..|s| - 1]);
      assert s == (left + Strip(s[..|s| - 1]) + right) + [s[|s| - 1]];
      right := right + [s[|s| - 1]];
    } else {
      left, right := "", "";
    }
  }
}
