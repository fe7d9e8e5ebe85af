/** Stage 3 of the comment sanitiser: Python's `html.unescape`, which replaces
    character references following the rules of the HTML5 standard ("13.2.5.72
    Character reference state" and the numeric reference end state of the
    WHATWG HTML Living Standard). Numeric references follow those rules in
    full; named references use a small table of the standard's names.

    `html.unescape` scans with the pattern
      &(#[0-9]+;?|#[xX][0-9a-fA-F]+;?|[^\t\n\f <&#;]{1,32};?)
    and replaces each match; text that no reference matches is kept. */
module HtmlUnescape {
  import opened Results

  /** A matched reference: its replacement text and how many characters after
      the '&' it consumed. */
  datatype Ref = Ref(text: string, len: nat)

  /** The named references of the model (a subset of the standard's table,
      with the legacy forms that may omit the ';'). */
  const Named: map<string, string> := map[
    "amp;" := "&", "amp" := "&", "AMP;" := "&", "AMP" := "&",
    "lt;" := "<", "lt" := "<", "LT;" := "<", "LT" := "<",
    "gt;" := ">", "gt" := ">", "GT;" := ">", "GT" := ">",
    "quot;" := "\"", "quot" := "\"", "QUOT;" := "\"", "QUOT" := "\"",
    "apos;" := "'",
    "nbsp;" := "\U{A0}", "nbsp" := "\U{A0}"
  ]

  /** Numeric references that the standard maps to another character
      (mostly the windows-1252 reading of 0x80-0x9F). */
  const Remapped: map<int, char> := map[
    0x00 := '\U{FFFD}', 0x0D := '\r',
    0x80 := '\U{20AC}', 0x81 := '\U{81}', 0x82 := '\U{201A}', 0x83 := '\U{192}',
    0x84 := '\U{201E}', 0x85 := '\U{2026}', 0x86 := '\U{2020}', 0x87 := '\U{2021}',
    0x88 := '\U{2C6}', 0x89 := '\U{2030}', 0x8A := '\U{160}', 0x8B := '\U{2039}',
    0x8C := '\U{152}', 0x8D := '\U{8D}', 0x8E := '\U{17D}', 0x8F := '\U{8F}',
    0x90 := '\U{90}', 0x91 := '\U{2018}', 0x92 := '\U{2019}', 0x93 := '\U{201C}',
    0x94 := '\U{201D}', 0x95 := '\U{2022}', 0x96 := '\U{2013}', 0x97 := '\U{2014}',
    0x98 := '\U{2DC}', 0x99 := '\U{2122}', 0x9A := '\U{161}', 0x9B := '\U{203A}',
    0x9C := '\U{153}', 0x9D := '\U{9D}', 0x9E := '\U{17E}', 0x9F := '\U{178}'
  ]

  /** Code points that a numeric reference deletes: controls, non-characters. */
  predicate Dropped(n: int) {
    (1 <= n <= 8) || n == 0x0B || (0x0E <= n <= 0x1F) || (0x7F <= n <= 0x9F)
    || (0xFDD0 <= n <= 0xFDEF)
    || (0 <= n <= 0x10FFFF && (n % 0x10000 == 0xFFFE || n % 0x10000 == 0xFFFF))
  }

  /** The replacement of the numeric reference to code point `n`. */
  function NumericText(n: nat): (r: string)
    ensures |r| <= 1
  {
    if n in Remapped then [Remapped[n]]
    else if (0xD800 <= n <= 0xDFFF) || n > 0x10FFFF then "\U{FFFD}"
    else if Dropped(n) then ""
    else [n as char]
  }

  predicate IsDigit(c: char) { '0' <= c <= '9' }

  predicate IsHexDigit(c: char) { IsDigit(c) || ('a' <= c <= 'f') || ('A' <= c <= 'F') }

  /** Characters that may appear in the name of a named reference. */
  predicate IsNameChar(c: char) {
    c != '\t' && c != '\n' && c != '\U{C}' && c != ' ' && c != '<' && c != '&' && c != '#' && c != ';'
  }

  function DigitValue(c: char): (d: nat)
    requires IsHexDigit(c)
    ensures d < 16 && (IsDigit(c) ==> d < 10)
  {
    if IsDigit(c) then c as int - '0' as int
    else if 'a' <= c <= 'f' then c as int - 'a' as int + 10
    else c as int - 'A' as int + 10
  }

  /** Length of the longest prefix of `t` made of (hexadecimal, if `hex`) digits. */
  function DigitRun(t: string, hex: bool): (k: nat)
    ensures k <= |t|
    ensures forall j :: 0 <= j < k ==> (if hex then IsHexDigit(t[j]) else IsDigit(t[j]))
    ensures k < |t| ==> !(if hex then IsHexDigit(t[k]) else IsDigit(t[k]))
    decreases |t|
  {
    if t != [] && (if hex then IsHexDigit(t[0]) else IsDigit(t[0])) then 1 + DigitRun(t[1..], hex)
    else 0
  }

  /** The number that a digit string denotes in base 10 or 16 (Python `int`). */
  function Value(digits: string, hex: bool): nat
    requires forall j :: 0 <= j < |digits| ==> IsHexDigit(digits[j])
    decreases |digits|
  {
    if digits == [] then 0
    else Value(digits[..|digits| - 1], hex) * (if hex then 16 else 10) + DigitValue(digits[|digits| - 1])
  }

  /** Length of the name a named reference may use, at most 32 characters. */
  function NameRun(t: string): (k: nat)
    ensures k <= |t| && k <= 32
    ensures forall j :: 0 <= j < k ==> IsNameChar(t[j])
    ensures k < |t| && k < 32 ==> !IsNameChar(t[k])
    decreases |t|
  {
    if t != [] && IsNameChar(t[0]) then (if 1 + NameRun(t[1..]) > 32 then 32 else 1 + NameRun(t[1..]))
    else 0
  }

  /** 1 when the optional ';' follows position `i` of `t`, else 0. */
  function Semi(t: string, i: nat): (n: nat)
    ensures n <= 1 && (n == 1 <==> i < |t| && t[i] == ';')
  {
    if i < |t| && t[i] == ';' then 1 else 0
  }

  /** Python's fallback for a name that is not in the table: the longest prefix
      of at least two characters that is a name, followed by the rest as text;
      failing that, the whole reference is left as it was. `x` is the longest
      prefix length still to try. */
  function LongestPrefix(name: string, x: int): (r: string)
    requires x < |name|
    ensures |r| <= |name| + 1
    decreases x
  {
    if x < 2 then "&" + name
    else if name[..x] in Named then Named[name[..x]] + name[x..]
    else LongestPrefix(name, x - 1)
  }

  /** The replacement of a named reference (its name, with its ';' if any). */
  function NamedText(name: string): (r: string)
    requires name != []
    ensures |r| <= |name| + 1
  {
    if name in Named then Named[name] else LongestPrefix(name, |name| - 1)
  }

  /** The reference that starts right after a '&', if any. */
  function CharRef(t: string): (r: Option<Ref>)
    ensures r.Some? ==> 1 <= r.value.len <= |t| && |r.value.text| <= r.value.len + 1
  {
    if t != [] && t[0] == '#' then
      var d := DigitRun(t[1..], false);
      if d > 0 then
        Some(Ref(NumericText(Value(t[1..1 + d], false)), 1 + d + Semi(t, 1 + d)))
      else if |t| >= 2 && (t[1] == 'x' || t[1] == 'X') && DigitRun(t[2..], true) > 0 then
        var h := DigitRun(t[2..], true);
        Some(Ref(NumericText(Value(t[2..2 + h], true)), 2 + h + Semi(t, 2 + h)))
      else None
    else
      var k := NameRun(t);
      if k == 0 then None
      else
        var n := k + Semi(t, k);
        Some(Ref(NamedText(t[..n]), n))
  }

  /** `html.unescape`. */
  function Unescape(s: string): (r: string)
    decreases |s|
  {
    if s == [] then []
    else if s[0] == '&' then
      match CharRef(s[1..])
      case Some(r) => r.text + Unescape(s[1 + r.len..])
      case None => "&" + Unescape(s[1..])
    else [s[0]] + Unescape(s[1..])
  }

  /** A text without '&' holds no reference and is returned unchanged. */
  lemma {:induction false} UnescapeWithoutAmpersand(s: string)
    requires '&' !in s
    ensures Unescape(s) == s
    decreases |s|
  {
    if s != [] {
      assert '&' !in s[1..] by {
        forall j | 0 <= j < |s[1..]| ensures s[1..][j] != '&' {
          assert s[1..][j] == s[j + 1];
        }
      }
      UnescapeWithoutAmpersand(s[1..]);
      assert s == [s[0]] + s[1..];
    }
  }

  /** No replacement is longer than the reference it replaces. */
  lemma {:induction false} UnescapeNeverLonger(s: string)
    ensures |Unescape(s)| <= |s|
    decreases |s|
  {
    if s != [] {
      if s[0] == '&' && CharRef(s[1..]).Some? {
        UnescapeNeverLonger(s[1 + CharRef(s[1..]).value.len..]);
      } else {
        UnescapeNeverLonger(s[1..]);
      }
    }
  }

  /** Python's `html.escape` (with quotes): the five characters HTML reserves
      become references. Not part of the sanitiser; the partner that
      `Unescape` undoes. */
  function EscapeChar(c: char): string {
    if c == '&' then "&amp;"
    else if c == '<' then "&lt;"
    else if c == '>' then "&gt;"
    else if c == '"' then "&quot;"
    else if c == '\'' then "&#x27;"
    else [c]
  }

  function Escape(s: string): (r: string)
    decreases |s|
  {
    if s == [] then [] else EscapeChar(s[0]) + Escape(s[1..])
  }

  /** `Unescape` reads one escaped character back, whatever follows it. */
  lemma UnescapeEscapedChar(c: char, rest: string)
    ensures Unescape(EscapeChar(c) + rest) == [c] + Unescape(rest)
  {
    if c == '&' || c == '<' || c == '>' || c == '"' {
      UnescapeEscapedNamed(c, rest);
    } else if c == '\'' {
      UnescapeApostrophe(rest);
    } else {
      var s := EscapeChar(c) + rest;
      assert s[1..] == rest;
    }
  }

  /** The four characters escaped by name. */
  lemma UnescapeEscapedNamed(c: char, rest: string)
    requires c == '&' || c == '<' || c == '>' || c == '"'
    ensures Unescape(EscapeChar(c) + rest) == [c] + Unescape(rest)
  {
    var name := if c == '&' then "amp;" else if c == '<' then "lt;" else if c == '>' then "gt;" else "quot;";
    assert EscapeChar(c) == "&" + name;
    assert Named[name] == [c];
    UnescapeNamed(name, rest);
  }

  /** The reference `&#x27;` becomes an apostrophe. */
  lemma UnescapeApostrophe(rest: string)
    ensures Unescape("&#x27;" + rest) == "'" + Unescape(rest)
  {
    var s := "&#x27;" + rest;
    assert s[1..] == "#x27;" + rest;
    HexRefRead(rest);
    assert s[6..] == rest;
  }

  /** A '&' and a name of the table ending in ';' become that name's character. */
  lemma UnescapeNamed(name: string, rest: string)
    requires name in {"amp;", "lt;", "gt;", "quot;"}
    ensures Unescape("&" + name + rest) == Named[name] + Unescape(rest)
  {
    var s := "&" + name + rest;
    assert s[1..] == name + rest;
    NamedRefRead(name, rest);
    assert s[1 + |name|..] == rest;
  }

  /** A named reference `name` of the table, ending in ';', is read whole. */
  lemma NamedRefRead(name: string, rest: string)
    requires name in {"amp;", "lt;", "gt;", "quot;"}
    ensures CharRef(name + rest) == Some(Ref(Named[name], |name|))
  {
    var t := name + rest;
    var k := |name| - 1;
    assert forall j :: 0 <= j < k ==> t[j] == name[j] && IsNameChar(name[j]);
    assert t[k] == ';';
    NameRunIs(t, k);
    assert t[..k + 1] == name;
  }

  /** The hexadecimal reference to the apostrophe is read whole. */
  lemma HexRefRead(rest: string)
    ensures CharRef("#x27;" + rest) == Some(Ref("'", 5))
  {
    var t := "#x27;" + rest;
    assert t[1..][0] == 'x';
    assert t[2..] == "27;" + rest;
    DigitRunIs(t[2..], 2);
    assert t[2..4] == "27";
    assert Value("27", true) == 39 by {
      assert "27"[..1] == "2";
      assert Value("2", true) == 2 by { assert "2"[..0] == []; }
    }
  }

  /** The decimal reference `&#39;` also becomes an apostrophe. */
  lemma UnescapeDecimalApostrophe(rest: string)
    ensures Unescape("&#39;" + rest) == "'" + Unescape(rest)
  {
    var s := "&#39;" + rest;
    var t := s[1..];
    assert t == "#39;" + rest;
    assert t[1..] == "39;" + rest;
    DecimalRunIs(t[1..], 2);
    assert t[1..3] == "39";
    assert Value("39", false) == 39 by {
      assert "39"[..1] == "3";
      assert Value("3", false) == 3 by { assert "3"[..0] == []; }
    }
    assert CharRef(t) == Some(Ref("'", 4));
    assert s[5..] == rest;
  }

  lemma {:induction false} DecimalRunIs(t: string, k: nat)
    requires k < |t| && !IsDigit(t[k])
    requires forall j :: 0 <= j < k ==> IsDigit(t[j])
    ensures DigitRun(t, false) == k
    decreases k
  {
    if k > 0 {
      DecimalRunIs(t[1..], k - 1);
    }
  }

  lemma {:induction false} NameRunIs(t: string, k: nat)
    requires k < |t| && k < 32 && !IsNameChar(t[k])
    requires forall j :: 0 <= j < k ==> IsNameChar(t[j])
    ensures NameRun(t) == k
    decreases k
  {
    if k > 0 {
      NameRunIs(t[1..], k - 1);
    }
  }

  lemma {:induction false} DigitRunIs(t: string, k: nat)
    requires k < |t| && !IsHexDigit(t[k])
    requires forall j :: 0 <= j < k ==> IsHexDigit(t[j])
    ensures DigitRun(t, true) == k
    decreases k
  {
    if k > 0 {
      DigitRunIs(t[1..], k - 1);
    }
  }

  /** `Unescape` undoes `Escape`. */
  lemma {:induction false} UnescapeEscape(s: string)
    ensures Unescape(Escape(s)) == s
    decreases |s|
  {
    if s != [] {
      UnescapeEscapedChar(s[0], Escape(s[1..]));
      UnescapeEscape(s[1..]);
      assert s == [s[0]] + s[1..];
    }
  }
}
