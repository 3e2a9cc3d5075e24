/**
 Python text primitives on already NFC-normalised text: the whitespace class shared by `str.strip`
 and the pattern `\s`, and stripping.
 */
module Text {

  /** The code points `str.isspace` accepts; `\s` accepts the same ones. */
  predicate IsSpace(c: char) {
    var p := c as int;
    9 <= p <= 13 || 28 <= p <= 32 || p == 0x85 || p == 0xA0 || p == 0x1680 || 0x2000 <= p <= 0x200A
    || p == 0x2028 || p == 0x2029 || p == 0x202F || p == 0x205F || p == 0x3000
  }

  predicate AllSpace(s: string) {
    forall i :: 0 <= i < |s| ==> IsSpace(s[i])
  }

  /** How many whitespace characters stand at the start. */
  function Leading(s: string): (n: nat)
    ensures n <= |s| && AllSpace(s[..n]) && (n < |s| ==> !IsSpace(s[n]))
  {
    if s != [] && IsSpace(s[0]) then
      var n := 1 + Leading(s[1..]);
      assert s[..n] == [s[0]] + s[1..][..n - 1];
      n
    else 0
  }

  /** How many whitespace characters stand at the end. */
  function Trailing(s: string): (n: nat)
    ensures n <= |s| && AllSpace(s[|s| - n..]) && (n < |s| ==> !IsSpace(s[|s| - n - 1]))
  {
    if s != [] && IsSpace(s[|s| - 1]) then
      var rest := s[..|s| - 1];
      var n := 1 + Trailing(rest);
      assert s[|s| - n..] == rest[|rest| - (n - 1)..] + [s[|s| - 1]];
      n
    else 0
  }

  /** `s.strip()` */
  function Strip(s: string): string {
    var left := s[Leading(s)..];
    left[..|left| - Trailing(left)]
  }

  /** Stripped text touches no whitespace at either end. */
  predicate Stripped(s: string) {
    s == [] || (!IsSpace(s[0]) && !IsSpace(s[|s| - 1]))
  }

  /** `strip` removes exactly the outer whitespace: what it drops is whitespace, what it keeps is stripped. */
  lemma StripKeepsCore(s: string) returns (before: string, after: string)
    ensures Stripped(Strip(s)) && s == before + Strip(s) + after && AllSpace(before) && AllSpace(after)
  {
    var left := s[Leading(s)..];
    before, after := s[..Leading(s)], left[|left| - Trailing(left)..];
  }

  /** Stripping a stripped text changes nothing. */
  lemma StripIdempotent(s: string)
    requires Stripped(s)
    ensures Strip(s) == s
  {}
}
