/** Python's `str.strip` on the blanks that occur here. */
module Strings {

  predicate Blank(c: char) { c == ' ' || c == '\t' || c == '\n' || c == '\r' }

  function Strip(s: string): (r: string)
    ensures r != "" ==> !Blank(r[0]) && !Blank(r[|r| - 1])
    ensures r != s ==> |r| < |s|
    decreases |s|
  {
    if |s| == 0 then s
    else if Blank(s[0]) then Strip(s[1..])
    else if Blank(s[|s| - 1]) then Strip(s[..|s| - 1])
    else s
  }

  /** Stripping twice is stripping once. */
  lemma {:induction false} StripIsStable(s: string)
    ensures Strip(Strip(s)) == Strip(s)
  {
    assert Strip(s) != "" ==> !Blank(Strip(s)[0]);
  }
}
