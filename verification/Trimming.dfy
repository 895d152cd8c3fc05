/** White space at the ends of a text, as JavaScript's `trim` and Python's `strip` see it. */
module Trimming {

  /** White space that both languages know. */
  predicate Blank(c: char) {
    var n := c as int;
    || 0x09 <= n <= 0x0D || n == 0x20 || n == 0xA0 || n == 0x1680 || 0x2000 <= n <= 0x200A
    || n == 0x2028 || n == 0x2029 || n == 0x202F || n == 0x205F || n == 0x3000
  }

  predicate JsBlank(c: char) { Blank(c) || c as int == 0xFEFF }

  predicate PyBlank(c: char) { Blank(c) || 0x1C <= c as int <= 0x1F || c as int == 0x85 }

  function TrimRight(s: string, blank: char -> bool): (r: string)
    ensures |r| > 0 ==> !blank(r[|r| - 1])
    ensures r <= s && forall i :: |r| <= i < |s| ==> blank(s[i])
  {
    if |s| > 0 && blank(s[|s| - 1]) then TrimRight(s[..|s| - 1], blank) else s
  }

  function TrimLeft(s: string, blank: char -> bool): (r: string)
    ensures |r| > 0 ==> !blank(r[0])
    ensures |r| <= |s| && r == s[|s| - |r|..] && forall i :: 0 <= i < |s| - |r| ==> blank(s[i])
  {
    if |s| > 0 && blank(s[0]) then TrimLeft(s[1..], blank) else s
  }

  /** The text between its first and last characters that are not blank. */
  function Trim(s: string, blank: char -> bool): (r: string)
    ensures |r| > 0 ==> !blank(r[0]) && !blank(r[|r| - 1])
  {
    TrimLeft(TrimRight(s, blank), blank)
  }
}
