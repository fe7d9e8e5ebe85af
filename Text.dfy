/** Character classes and small string helpers shared by the models of the
    backend (Python) and of the browser extension (JavaScript). */
module Text {

  /** Python's notion of whitespace for `str`: what `str.isspace`, `str.strip`
      and the regular-expression classes `\s` / `\S` use. */
  predicate IsSpace(c: char) {
    ('\U{9}' <= c <= '\U{D}') || ('\U{1C}' <= c <= '\U{1F}') || c == ' '
    || c == '\U{85}' || c == '\U{A0}' || c == '\U{1680}'
    || ('\U{2000}' <= c <= '\U{200A}') || c == '\U{2028}' || c == '\U{2029}'
    || c == '\U{202F}' || c == '\U{205F}' || c == '\U{3000}'
  }

  /** `lit` occurs in `s` starting at position `k`. */
  predicate HasAt(s: string, k: nat, lit: string) {
    k + |lit| <= |s| && s[k..k + |lit|] == lit
  }

  /** `lit` is a substring of `s` (JavaScript `includes`, Python `in`). */
  predicate Contains(s: string, lit: string) {
    exists k: nat :: k <= |s| && HasAt(s, k, lit)
  }

  /** Each string of `parts` joined by one space (Python `' '.join`). */
  function JoinSpace(parts: seq<string>): string
    decreases |parts|
  {
    if parts == [] then []
    else if |parts| == 1 then parts[0]
    else parts[0] + " " + JoinSpace(parts[1..])
  }

  /** Python `str.lower` restricted to the ASCII letters. */
  function LowerAscii(s: string): (r: string)
    ensures |r| == |s|
    ensures forall i :: 0 <= i < |r| ==> !('A' <= r[i] <= 'Z')
    ensures forall i :: 0 <= i < |s| && !('A' <= s[i] <= 'Z') ==> r[i] == s[i]
    ensures forall i :: 0 <= i < |s| && 'A' <= s[i] <= 'Z' ==> r[i] == (s[i] as int + 32) as char
  {
    seq(|s|, i requires 0 <= i < |s| =>
      if 'A' <= s[i] <= 'Z' then (s[i] as int + 32) as char else s[i])
  }
}
