/** The comment sanitiser `clean_comment` of the backend: four substitutions
    applied in a fixed order (tags, links, character references, whitespace).
    Each stage is a function on strings that follows the left-to-right,
    non-overlapping scan of Python's `re.sub`. */
module CommentCleaner {
  import opened Text
  import HtmlUnescape

  // ---------------------------------------------------------------------
  // Stage 1: `re.sub(r'<.*?>', '', comment)`.
  // `.` matches every character except '\n', and `.*?` is lazy, so a match
  // at a '<' ends at the first '>' after it, provided no '\n' comes first.
  // ---------------------------------------------------------------------

  /** A '>' occurs in `t` before any '\n': `.*?>` can match a prefix of `t`. */
  predicate CloseOnLine(t: string)
    decreases |t|
  {
    t != [] && (t[0] == '>' || (t[0] != '\n' && CloseOnLine(t[1..])))
  }

  /** Position of the '>' that ends the lazy match. */
  function CloseIndex(t: string): (k: nat)
    requires CloseOnLine(t)
    ensures k < |t| && t[k] == '>'
    ensures forall j :: 0 <= j < k ==> t[j] != '>' && t[j] != '\n'
    decreases |t|
  {
    if t[0] == '>' then 0 else 1 + CloseIndex(t[1..])
  }

  /** Stage 1: delete every single-line `<...>` span, scanning left to right. */
  function StripTags(s: string): (r: string)
    decreases |s|
  {
    if s == [] then []
    else if s[0] == '<' && CloseOnLine(s[1..]) then StripTags(s[CloseIndex(s[1..]) + 2..])
    else [s[0]] + StripTags(s[1..])
  }

  /** No '<' of `s` is followed by a '>' on the same line: the tag pattern
      has no match anywhere in `s`. */
  predicate TagFree(s: string)
    decreases |s|
  {
    s == [] || ((s[0] == '<' ==> !CloseOnLine(s[1..])) && TagFree(s[1..]))
  }

  /** If the first line of `t` holds no '>', stage 1 copies that line verbatim,
      so its output has no '>' on its first line either. */
  lemma {:induction false} StripTagsKeepsOpenLine(t: string)
    requires !CloseOnLine(t)
    ensures !CloseOnLine(StripTags(t))
    decreases |t|
  {
    if t != [] && t[0] != '\n' {
      StripTagsKeepsOpenLine(t[1..]);
      assert StripTags(t) == [t[0]] + StripTags(t[1..]);
      assert ([t[0]] + StripTags(t[1..]))[1..] == StripTags(t[1..]);
    } else if t != [] {
      assert StripTags(t) == [t[0]] + StripTags(t[1..]);
    }
  }

  /** Stage 1 leaves no tag behind, even where deleting one span brings a '<'
      and a '>' together. */
  lemma {:induction false} StripTagsIsTagFree(s: string)
    ensures TagFree(StripTags(s))
    decreases |s|
  {
    if s == [] {
    } else if s[0] == '<' && CloseOnLine(s[1..]) {
      StripTagsIsTagFree(s[CloseIndex(s[1..]) + 2..]);
    } else {
      var rest := StripTags(s[1..]);
      StripTagsIsTagFree(s[1..]);
      if s[0] == '<' {
        StripTagsKeepsOpenLine(s[1..]);
      }
      assert StripTags(s) == [s[0]] + rest;
      assert ([s[0]] + rest)[1..] == rest;
    }
  }

  /** Stage 1 changes its input exactly when the input holds a tag. */
  lemma {:induction false} StripTagsIdentityIffTagFree(s: string)
    ensures StripTags(s) == s <==> TagFree(s)
    decreases |s|
  {
    if s != [] {
      StripTagsIdentityIffTagFree(s[1..]);
      if TagFree(s) {
        assert StripTags(s) == [s[0]] + StripTags(s[1..]);
        assert s == [s[0]] + s[1..];
      } else if StripTags(s) == s {
        StripTagsIsTagFree(s);
        assert false;
      }
    }
  }

  /** Running stage 1 twice is the same as running it once. */
  lemma StripTagsIdempotent(s: string)
    ensures StripTags(StripTags(s)) == StripTags(s)
  {
    StripTagsIsTagFree(s);
    StripTagsIdentityIffTagFree(StripTags(s));
  }

  /** A line fragment with neither '>' nor a line break. */
  predicate OpenFragment(x: string) {
    forall j :: 0 <= j < |x| ==> x[j] != '>' && x[j] != '\n'
  }

  lemma {:induction false} CloseAfterFragment(x: string, rest: string)
    requires OpenFragment(x)
    ensures CloseOnLine(x + ">" + rest) && CloseIndex(x + ">" + rest) == |x|
    decreases |x|
  {
    if x != [] {
      assert (x + ">" + rest)[1..] == x[1..] + ">" + rest;
      CloseAfterFragment(x[1..], rest);
    }
  }

  lemma {:induction false} NoCloseAfterFragment(x: string, rest: string)
    requires OpenFragment(x)
    ensures !CloseOnLine(x + "\n" + rest)
    decreases |x|
  {
    if x != [] {
      assert (x + "\n" + rest)[1..] == x[1..] + "\n" + rest;
      NoCloseAfterFragment(x[1..], rest);
    }
  }

  /** Tag removal deletes the shortest `<...>` span that stays on one line,
      then resumes the scan after it. */
  lemma TagDeletedShortest(inner: string, rest: string)
    requires OpenFragment(inner)
    ensures StripTags("<" + inner + ">" + rest) == StripTags(rest)
  {
    var s := "<" + inner + ">" + rest;
    assert s[1..] == inner + ">" + rest;
    CloseAfterFragment(inner, rest);
    assert s[|inner| + 2..] == rest;
  }

  /** Up to a line break, a fragment without '>' is copied verbatim, any '<'
      in it included. */
  lemma {:induction false} StripTagsCopiesOpenLine(x: string, rest: string)
    requires OpenFragment(x)
    ensures StripTags(x + "\n" + rest) == x + "\n" + StripTags(rest)
    decreases |x|
  {
    var s := x + "\n" + rest;
    if x == [] {
      assert s == "\n" + rest;
      assert s[1..] == rest;
    } else {
      assert s[1..] == x[1..] + "\n" + rest;
      if x[0] == '<' {
        NoCloseAfterFragment(x[1..], rest);
      }
      StripTagsCopiesOpenLine(x[1..], rest);
      assert s == [x[0]] + s[1..];
      assert x + "\n" + StripTags(rest) == [x[0]] + (x[1..] + "\n" + StripTags(rest));
    }
  }

  /** `.` does not match a line break, so a '<' whose '>' is on a later line
      opens no tag: the text survives stage 1 up to the line break. */
  lemma TagAcrossLinesSurvives(inner: string, rest: string)
    requires OpenFragment(inner)
    ensures StripTags("<" + inner + "\n" + rest) == "<" + inner + "\n" + StripTags(rest)
  {
    assert "<" + inner + "\n" + rest == ("<" + inner) + "\n" + rest;
    StripTagsCopiesOpenLine("<" + inner, rest);
  }

  // ---------------------------------------------------------------------
  // Stage 2: `re.sub(r'http\S+|www\S+|https\S+', '', comment)`.
  // `\S+` is greedy, so a match runs to the next whitespace character or to
  // the end of the text, whichever alternative matched.
  // ---------------------------------------------------------------------

  /** The alternative `lit\S+` matches at the start of `s` (`lit` itself has
      no whitespace, so it is enough that one non-space character follows). */
  predicate AltAt(s: string, lit: string) {
    HasAt(s, 0, lit) && |s| > |lit| && !IsSpace(s[|lit|])
  }

  /** One of the three link alternatives matches at the start of `s`. */
  predicate LinkAt(s: string) {
    AltAt(s, "http") || AltAt(s, "www") || AltAt(s, "https")
  }

  /** Length of the longest prefix of `s` without whitespace. */
  function WordLen(s: string): (k: nat)
    ensures k <= |s|
    ensures forall j :: 0 <= j < k ==> !IsSpace(s[j])
    ensures k < |s| ==> IsSpace(s[k])
    decreases |s|
  {
    if s == [] || IsSpace(s[0]) then 0 else 1 + WordLen(s[1..])
  }

  /** Stage 2: delete every link, from its first letter to the next whitespace. */
  function StripLinks(s: string): (r: string)
    decreases |s|
  {
    if s == [] then []
    else if LinkAt(s) then StripLinks(s[WordLen(s)..])
    else [s[0]] + StripLinks(s[1..])
  }

  /** The link pattern has no match anywhere in `s`. */
  predicate LinkFree(s: string)
    decreases |s|
  {
    s == [] || (!LinkAt(s) && LinkFree(s[1..]))
  }

  /** The third alternative adds nothing: every `https\S+` match is also an
      `http\S+` match of the same extent. */
  lemma HttpsSubsumed(s: string)
    requires AltAt(s, "https")
    ensures AltAt(s, "http") && WordLen(s) > 5
  {
    assert s[..4] == s[..5][..4];
    assert !IsSpace(s[4]) by { assert s[4] == s[..5][4]; }
  }

  /** No link alternative starts at whitespace. */
  lemma NoAltAtSpace(t: string, lit: string)
    requires t != [] && IsSpace(t[0]) && lit != [] && !IsSpace(lit[0])
    ensures !AltAt(t, lit)
  {
    if |lit| <= |t| {
      assert t[..|lit|][0] == t[0];
    }
  }

  /** A text that is empty or begins with whitespace keeps that first character. */
  lemma StripLinksAtSpace(t: string)
    requires t != [] ==> IsSpace(t[0])
    ensures StripLinks(t) == [] || (t != [] && StripLinks(t)[0] == t[0])
  {
    if t != [] {
      NoAltAtSpace(t, "http");
      NoAltAtSpace(t, "www");
      NoAltAtSpace(t, "https");
    }
  }

  /** The output's first word (and anything inside it) stands in the same
      place in the input: a deleted link always ends at whitespace or at the end. */
  lemma {:induction false} StripLinksPrefix(t: string, m: nat)
    requires m <= |StripLinks(t)|
    requires forall j :: 0 <= j < m ==> !IsSpace(StripLinks(t)[j])
    ensures m <= |t| && StripLinks(t)[..m] == t[..m]
    decreases |t|
  {
    if m == 0 {
    } else if LinkAt(t) {
      StripLinksAtSpace(t[WordLen(t)..]);
      assert false;
    } else {
      var r := StripLinks(t[1..]);
      assert StripLinks(t) == [t[0]] + r;
      assert forall j :: 0 <= j < m - 1 ==> r[j] == StripLinks(t)[j + 1];
      StripLinksPrefix(t[1..], m - 1);
      assert StripLinks(t)[..m] == [t[0]] + r[..m - 1];
      assert t[..m] == [t[0]] + t[1..][..m - 1];
    }
  }

  /** A character kept in front of the rest of the output cannot complete one
      link alternative with it unless that alternative already matched. */
  lemma AltAtJoin(s: string, lit: string)
    requires s != [] && lit != []
    requires forall i :: 0 <= i < |lit| ==> !IsSpace(lit[i])
    requires AltAt([s[0]] + StripLinks(s[1..]), lit)
    ensures AltAt(s, lit)
  {
    var rest := StripLinks(s[1..]);
    var out := [s[0]] + rest;
    var m := |lit|;
    assert forall j :: 0 <= j < m ==> rest[j] == out[j + 1];
    assert forall j :: 1 <= j < m ==> out[j] == lit[j];
    StripLinksPrefix(s[1..], m);
    assert out[..m + 1] == [s[0]] + rest[..m];
    assert s[..m + 1] == [s[0]] + s[1..][..m];
    assert s[..m] == out[..m + 1][..m];
    assert s[m] == out[..m + 1][m];
  }

  /** A character kept in front of the rest of the output cannot complete a
      link with it. */
  lemma NoLinkAtJoin(s: string)
    requires s != [] && !LinkAt(s)
    ensures !LinkAt([s[0]] + StripLinks(s[1..]))
  {
    var out := [s[0]] + StripLinks(s[1..]);
    if AltAt(out, "http") {
      AltAtJoin(s, "http");
    }
    if AltAt(out, "www") {
      AltAtJoin(s, "www");
    }
    if AltAt(out, "https") {
      AltAtJoin(s, "https");
    }
  }

  /** Stage 2 leaves no link behind. */
  lemma {:induction false} StripLinksIsLinkFree(s: string)
    ensures LinkFree(StripLinks(s))
    decreases |s|
  {
    if s == [] {
    } else if LinkAt(s) {
      StripLinksIsLinkFree(s[WordLen(s)..]);
    } else {
      StripLinksIsLinkFree(s[1..]);
      NoLinkAtJoin(s);
      var out := [s[0]] + StripLinks(s[1..]);
      assert out[1..] == StripLinks(s[1..]);
    }
  }

  /** Stage 2 changes its input exactly when the input holds a link. */
  lemma {:induction false} StripLinksIdentityIffLinkFree(s: string)
    ensures StripLinks(s) == s <==> LinkFree(s)
    decreases |s|
  {
    if s != [] {
      StripLinksIdentityIffLinkFree(s[1..]);
      if LinkFree(s) {
        assert s == [s[0]] + s[1..];
      } else if StripLinks(s) == s {
        StripLinksIsLinkFree(s);
        assert false;
      }
    }
  }

  /** `WordLen` is the only length that its two properties describe. */
  lemma {:induction false} WordLenIs(s: string, k: nat)
    requires k <= |s| && forall j :: 0 <= j < k ==> !IsSpace(s[j])
    requires k < |s| ==> IsSpace(s[k])
    ensures WordLen(s) == k
    decreases k
  {
    if k > 0 {
      WordLenIs(s[1..], k - 1);
    }
  }

  /** A link is deleted from its first letter up to the next whitespace
      character, which is kept, and the scan resumes there. */
  lemma LinkDeletedUpToSpace(link: string, rest: string)
    requires LinkAt(link)
    requires forall j :: 0 <= j < |link| ==> !IsSpace(link[j])
    requires rest != [] ==> IsSpace(rest[0])
    ensures StripLinks(link + rest) == StripLinks(rest)
  {
    var s := link + rest;
    assert forall k: nat :: k < |link| ==> s[..k] == link[..k];
    assert LinkAt(s);
    WordLenIs(s, |link|);
    assert s[|link|..] == rest;
  }

  // ---------------------------------------------------------------------
  // Stage 4: `re.sub(r'\s+', ' ', comment).strip()`.
  // ---------------------------------------------------------------------

  /** Length of the longest prefix of `s` made of whitespace. */
  function SpaceLen(s: string): (k: nat)
    ensures k <= |s|
    ensures forall j :: 0 <= j < k ==> IsSpace(s[j])
    ensures k < |s| ==> !IsSpace(s[k])
    decreases |s|
  {
    if s == [] || !IsSpace(s[0]) then 0 else 1 + SpaceLen(s[1..])
  }

  /** `re.sub(r'\s+', ' ', s)`: every whitespace run becomes one space. */
  function CollapseSpaces(s: string): (r: string)
    decreases |s|
  {
    if s == [] then []
    else if IsSpace(s[0]) then " " + CollapseSpaces(s[SpaceLen(s)..])
    else [s[0]] + CollapseSpaces(s[1..])
  }

  /** Number of whitespace characters at the end of `s`. */
  function TrailingSpace(s: string): (k: nat)
    ensures k <= |s|
    ensures forall j :: |s| - k <= j < |s| ==> IsSpace(s[j])
    ensures k < |s| ==> !IsSpace(s[|s| - 1 - k])
    decreases |s|
  {
    if s == [] || !IsSpace(s[|s| - 1]) then 0 else 1 + TrailingSpace(s[..|s| - 1])
  }

  /** `str.strip()`: the text between the leading and the trailing whitespace. */
  function Strip(s: string): (r: string) {
    if SpaceLen(s) == |s| then [] else s[SpaceLen(s)..|s| - TrailingSpace(s)]
  }

  /** The bounds of `Strip` are well ordered and land on non-space characters. */
  lemma StripBounds(s: string)
    requires SpaceLen(s) < |s|
    ensures SpaceLen(s) < |s| - TrailingSpace(s)
    ensures !IsSpace(s[SpaceLen(s)]) && !IsSpace(s[|s| - 1 - TrailingSpace(s)])
  {
  }

  /** Every whitespace character is a plain space, and no two are adjacent. */
  predicate SingleSpaced(s: string) {
    && (forall j :: 0 <= j < |s| && IsSpace(s[j]) ==> s[j] == ' ')
    && (forall j :: 0 <= j < |s| - 1 && IsSpace(s[j]) ==> !IsSpace(s[j + 1]))
  }

  /** The form `clean_comment` produces: single-spaced, and neither starting
      nor ending with whitespace. */
  predicate Normalized(s: string) {
    SingleSpaced(s) && (s != [] ==> !IsSpace(s[0]) && !IsSpace(s[|s| - 1]))
  }

  /** The characters of `s` that are not whitespace, in order. */
  function Ink(s: string): (r: string)
    decreases |s|
  {
    if s == [] then [] else (if IsSpace(s[0]) then [] else [s[0]]) + Ink(s[1..])
  }

  lemma {:induction false} InkConcat(a: string, b: string)
    ensures Ink(a + b) == Ink(a) + Ink(b)
    decreases |a|
  {
    if a != [] {
      assert (a + b)[1..] == a[1..] + b;
      InkConcat(a[1..], b);
    } else {
      assert a + b == b;
    }
  }

  lemma {:induction false} InkOfSpaces(s: string, k: nat)
    requires k <= |s| && forall j :: 0 <= j < k ==> IsSpace(s[j])
    ensures Ink(s[..k]) == []
    decreases k
  {
    if k > 0 {
      assert s[..k][1..] == s[1..][..k - 1];
      InkOfSpaces(s[1..], k - 1);
    }
  }

  /** A text starting with a non-space keeps that character first. */
  lemma CollapseSpacesHead(s: string)
    requires s != [] && !IsSpace(s[0])
    ensures CollapseSpaces(s) != [] && CollapseSpaces(s)[0] == s[0]
  {
  }

  /** Collapsing whitespace yields a single-spaced text. */
  lemma {:induction false} CollapseSpacesSingleSpaced(s: string)
    ensures SingleSpaced(CollapseSpaces(s))
    decreases |s|
  {
    if s == [] {
    } else if IsSpace(s[0]) {
      var t := s[SpaceLen(s)..];
      CollapseSpacesSingleSpaced(t);
      var r := CollapseSpaces(t);
      assert CollapseSpaces(s) == " " + r;
      if t != [] {
        CollapseSpacesHead(t);
      }
      assert forall j :: 1 <= j < |r| + 1 ==> (" " + r)[j] == r[j - 1];
    } else {
      CollapseSpacesSingleSpaced(s[1..]);
      var r := CollapseSpaces(s[1..]);
      assert CollapseSpaces(s) == [s[0]] + r;
      assert forall j :: 1 <= j < |r| + 1 ==> ([s[0]] + r)[j] == r[j - 1];
    }
  }

  /** Collapsing whitespace deletes or rewrites only whitespace. */
  lemma {:induction false} CollapseSpacesKeepsInk(s: string)
    ensures Ink(CollapseSpaces(s)) == Ink(s)
    decreases |s|
  {
    if s == [] {
    } else if IsSpace(s[0]) {
      var k := SpaceLen(s);
      CollapseSpacesKeepsInk(s[k..]);
      InkConcat(" ", CollapseSpaces(s[k..]));
      assert s == s[..k] + s[k..];
      InkConcat(s[..k], s[k..]);
      InkOfSpaces(s, k);
    } else {
      CollapseSpacesKeepsInk(s[1..]);
      InkConcat([s[0]], CollapseSpaces(s[1..]));
    }
  }

  /** On a single-spaced text, collapsing changes nothing. */
  lemma {:induction false} CollapseSpacesOnSingleSpaced(s: string)
    requires SingleSpaced(s)
    ensures CollapseSpaces(s) == s
    decreases |s|
  {
    if s != [] {
      assert SingleSpaced(s[1..]) by {
        forall j | 0 <= j < |s[1..]| - 1 && IsSpace(s[1..][j])
          ensures !IsSpace(s[1..][j + 1])
        {
          assert s[1..][j] == s[j + 1] && s[1..][j + 1] == s[j + 2];
        }
      }
      CollapseSpacesOnSingleSpaced(s[1..]);
      if IsSpace(s[0]) {
        assert |s| > 1 ==> !IsSpace(s[1]);
        assert SpaceLen(s) == 1;
      }
      assert s == [s[0]] + s[1..];
    }
  }

  /** Whitespace only has no ink. */
  lemma AllSpaceInk(s: string)
    requires forall j :: 0 <= j < |s| ==> IsSpace(s[j])
    ensures Ink(s) == []
  {
    InkOfSpaces(s, |s|);
    assert s[..|s|] == s;
  }

  /** Stripping removes only whitespace. */
  lemma StripKeepsInk(s: string)
    ensures Ink(Strip(s)) == Ink(s)
  {
    var lo := SpaceLen(s);
    if lo == |s| {
      AllSpaceInk(s);
    } else {
      StripBounds(s);
      var hi := |s| - TrailingSpace(s);
      InkOfThree(s, lo, hi);
    }
  }

  /** Dropping a whitespace-only prefix keeps the ink. */
  lemma {:induction false} InkDropFront(s: string, lo: nat)
    requires lo <= |s| && forall j :: 0 <= j < lo ==> IsSpace(s[j])
    ensures Ink(s[lo..]) == Ink(s)
    decreases lo
  {
    if lo > 0 {
      assert Ink(s) == Ink(s[1..]);
      assert s[1..][lo - 1..] == s[lo..];
      InkDropFront(s[1..], lo - 1);
    }
  }

  /** Dropping a whitespace-only suffix keeps the ink. */
  lemma InkDropBack(t: string, n: nat)
    requires n <= |t| && forall j :: n <= j < |t| ==> IsSpace(t[j])
    ensures Ink(t[..n]) == Ink(t)
  {
    var front, back := t[..n], t[n..];
    assert front + back == t;
    InkOfSpaceTail(t, n);
    InkConcat(front, back);
  }

  /** A whitespace-only suffix has no ink. */
  lemma {:induction false} InkOfSpaceTail(t: string, n: nat)
    requires n <= |t| && forall j :: n <= j < |t| ==> IsSpace(t[j])
    ensures Ink(t[n..]) == []
    decreases |t| - n
  {
    if n < |t| {
      InkOfSpaceTail(t, n + 1);
      assert t[n..][1..] == t[n + 1..];
    }
  }

  /** Cutting whitespace-only ends off a text keeps its ink. */
  lemma InkOfThree(s: string, lo: nat, hi: nat)
    requires lo <= hi <= |s|
    requires forall j :: 0 <= j < lo ==> IsSpace(s[j])
    requires forall j :: hi <= j < |s| ==> IsSpace(s[j])
    ensures Ink(s[lo..hi]) == Ink(s)
  {
    var head := s[..hi];
    InkDropBack(s, hi);
    assert forall j :: 0 <= j < lo ==> head[j] == s[j];
    InkDropFront(head, lo);
    assert head[lo..] == s[lo..hi];
  }

  /** A slice of a single-spaced text is single-spaced. */
  lemma SliceSingleSpaced(s: string, lo: nat, hi: nat)
    requires lo <= hi <= |s| && SingleSpaced(s)
    ensures SingleSpaced(s[lo..hi])
  {
    var r := s[lo..hi];
    assert forall j :: 0 <= j < |r| ==> r[j] == s[lo + j];
  }

  /** Stripping leaves non-space at both ends and keeps a text single-spaced. */
  lemma StripShape(s: string)
    ensures Strip(s) != [] ==> !IsSpace(Strip(s)[0]) && !IsSpace(Strip(s)[|Strip(s)| - 1])
    ensures SingleSpaced(s) ==> SingleSpaced(Strip(s))
  {
    if SpaceLen(s) < |s| {
      StripBounds(s);
      var lo, hi := SpaceLen(s), |s| - TrailingSpace(s);
      var r := s[lo..hi];
      assert r[0] == s[lo];
      assert r[|r| - 1] == s[hi - 1];
      if SingleSpaced(s) {
        SliceSingleSpaced(s, lo, hi);
      }
    }
  }

  /** Stripping a text that has no whitespace at either end changes nothing. */
  lemma StripUntrimmed(s: string)
    requires s != [] ==> !IsSpace(s[0]) && !IsSpace(s[|s| - 1])
    ensures Strip(s) == s
  {
  }

  /** `w` holds no whitespace. */
  predicate NoSpace(w: string) {
    forall j :: 0 <= j < |w| ==> !IsSpace(w[j])
  }

  /** `str.split()`: the maximal runs of non-whitespace characters, in order.
      This is the reference for stage 4, defined independently of it. */
  function Words(s: string): (ws: seq<string>)
    ensures forall w :: w in ws ==> w != [] && NoSpace(w)
    decreases |s|
  {
    if s == [] then []
    else if IsSpace(s[0]) then Words(s[1..])
    else [s[..WordLen(s)]] + Words(s[WordLen(s)..])
  }

  /** Leading whitespace separates no words. */
  lemma {:induction false} WordsSkipSpaces(s: string, k: nat)
    requires k <= |s| && forall j :: 0 <= j < k ==> IsSpace(s[j])
    ensures Words(s[k..]) == Words(s)
    decreases k
  {
    if k > 0 {
      assert s[1..][k - 1..] == s[k..];
      WordsSkipSpaces(s[1..], k - 1);
    }
  }

  /** Words joined by single spaces: empty exactly when there are no words,
      and otherwise starting and ending with a non-space character. */
  lemma {:induction false} JoinWordsEnds(ws: seq<string>)
    requires forall w :: w in ws ==> w != [] && NoSpace(w)
    ensures JoinSpace(ws) == [] <==> ws == []
    ensures ws != [] ==> !IsSpace(JoinSpace(ws)[0]) && !IsSpace(JoinSpace(ws)[|JoinSpace(ws)| - 1])
    decreases |ws|
  {
    if |ws| > 1 {
      assert ws[0] in ws;
      assert forall w :: w in ws[1..] ==> w in ws;
      JoinWordsEnds(ws[1..]);
      var j := JoinSpace(ws);
      assert j == ws[0] + " " + JoinSpace(ws[1..]);
      assert j[0] == ws[0][0];
      assert j[|j| - 1] == JoinSpace(ws[1..])[|JoinSpace(ws[1..])| - 1];
    } else if |ws| == 1 {
      assert ws[0] in ws;
    }
  }

  /** A word in front of further words is followed by one space. */
  lemma JoinCons(a: string, ws: seq<string>)
    requires ws != []
    ensures JoinSpace([a] + ws) == a + " " + JoinSpace(ws)
  {
    assert ([a] + ws)[1..] == ws;
  }

  /** Collapsing copies a text without whitespace verbatim. */
  lemma {:induction false} CollapseSpacesWord(w: string, rest: string)
    requires NoSpace(w)
    ensures CollapseSpaces(w + rest) == w + CollapseSpaces(rest)
    decreases |w|
  {
    if w != [] {
      assert (w + rest)[0] == w[0];
      assert (w + rest)[1..] == w[1..] + rest;
      CollapseSpacesWord(w[1..], rest);
      assert w == [w[0]] + w[1..];
    } else {
      assert w + rest == rest;
    }
  }

  /** The text `s` is empty or ends with whitespace: collapsing leaves one
      trailing space for it. */
  predicate EndsInSpace(s: string) {
    s != [] && IsSpace(s[|s| - 1])
  }

  /** A text that does not start with whitespace collapses to its words
      joined by single spaces, plus one space if it ends with whitespace. */
  lemma {:induction false} CollapseSpacesWords(s: string)
    requires s == [] || !IsSpace(s[0])
    ensures CollapseSpaces(s) == JoinSpace(Words(s)) + (if EndsInSpace(s) then " " else "")
    decreases |s|
  {
    if s != [] {
      var w := WordLen(s);
      var word, r := s[..w], s[w..];
      assert s == word + r;
      CollapseSpacesWord(word, r);
      assert Words(s) == [word] + Words(r);
      if r == [] {
        assert word == s;
        assert Words(s) == [word];
        assert JoinSpace(Words(s)) == word;
        assert !EndsInSpace(s);
      } else {
        CollapseThenWords(s, w, r);
      }
    }
  }

  /** The inductive step of `CollapseSpacesWords`: a first word followed by a
      whitespace run `r`. */
  lemma {:induction false} CollapseThenWords(s: string, w: nat, r: string)
    requires s != [] && !IsSpace(s[0]) && w == WordLen(s) && r == s[w..] && r != []
    requires CollapseSpaces(s) == s[..w] + CollapseSpaces(r)
    requires Words(s) == [s[..w]] + Words(r)
    ensures CollapseSpaces(s) == JoinSpace(Words(s)) + (if EndsInSpace(s) then " " else "")
    decreases |s|, 1
  {
    var k := SpaceLen(r);
    assert IsSpace(r[0]) by { assert r[0] == s[w]; }
    var t := r[k..];
    assert CollapseSpaces(r) == " " + CollapseSpaces(t) by { CollapseAtSpace(r); }
    assert Words(r) == Words(t) by { WordsSkipSpaces(r, k); }
    if k == |r| {
      LastWordThenSpaces(s, w, r, t);
    } else {
      WordThenMoreWords(s, w, r, k, t);
    }
  }

  /** A whitespace run collapses to one space. */
  lemma CollapseAtSpace(r: string)
    requires r != [] && IsSpace(r[0])
    ensures CollapseSpaces(r) == " " + CollapseSpaces(r[SpaceLen(r)..])
  {
  }

  /** The last word, followed by whitespace to the end. */
  lemma LastWordThenSpaces(s: string, w: nat, r: string, t: string)
    requires s != [] && w < |s| && r == s[w..] && t == [] && SpaceLen(r) == |r|
    requires CollapseSpaces(s) == s[..w] + CollapseSpaces(r)
    requires CollapseSpaces(r) == " " + CollapseSpaces(t)
    requires Words(s) == [s[..w]] + Words(r) && Words(r) == Words(t)
    ensures CollapseSpaces(s) == JoinSpace(Words(s)) + (if EndsInSpace(s) then " " else "")
  {
    assert EndsInSpace(s) by { assert s[|s| - 1] == r[|r| - 1]; }
    assert Words(s) == [s[..w]];
  }

  /** A word, a whitespace run of length `k`, and a text `t` that starts a
      further word. */
  lemma {:induction false} WordThenMoreWords(s: string, w: nat, r: string, k: nat, t: string)
    requires s != [] && w < |s| && r == s[w..] && 0 < k < |r| && t == r[k..] && !IsSpace(t[0])
    requires CollapseSpaces(s) == s[..w] + CollapseSpaces(r)
    requires CollapseSpaces(r) == " " + CollapseSpaces(t)
    requires Words(s) == [s[..w]] + Words(r) && Words(r) == Words(t)
    ensures CollapseSpaces(s) == JoinSpace(Words(s)) + (if EndsInSpace(s) then " " else "")
    decreases |s|, 0
  {
    var tail := if EndsInSpace(s) then " " else "";
    assert EndsInSpace(t) == EndsInSpace(s) by { assert t[|t| - 1] == s[|s| - 1]; }
    var j := JoinSpace(Words(t));
    assert CollapseSpaces(t) == j + tail by { CollapseSpacesWords(t); }
    assert Words(t) != [] by {
      assert Words(t) == [t[..WordLen(t)]] + Words(t[WordLen(t)..]);
    }
    assert CollapseSpaces(s) == s[..w] + (" " + (j + tail));
    assert JoinSpace(Words(s)) == s[..w] + " " + j by { JoinCons(s[..w], Words(t)); }
    Regroup(s[..w], " ", j, tail);
  }

  /** Concatenation regrouped. */
  lemma Regroup(a: string, b: string, c: string, d: string)
    ensures a + (b + (c + d)) == (a + b + c) + d
  {
  }

  /** `str.strip()` of a text that is whitespace, a core, and whitespace, where
      the core is empty or has non-space ends, is that core. */
  lemma StripCore(pre: string, core: string, post: string)
    requires NoInk(pre) && NoInk(post)
    requires core != [] ==> !IsSpace(core[0]) && !IsSpace(core[|core| - 1])
    ensures Strip(pre + core + post) == core
  {
    var x := pre + core + post;
    if core == [] {
      assert forall j :: 0 <= j < |x| ==> IsSpace(x[j]) by {
        forall j | 0 <= j < |x| ensures IsSpace(x[j]) {
          if j < |pre| { assert x[j] == pre[j]; } else { assert x[j] == post[j - |pre|]; }
        }
      }
    } else {
      var lo, n := SpaceLen(x), TrailingSpace(x);
      assert x[|pre|] == core[0];
      assert x[|x| - 1 - |post|] == core[|core| - 1];
      assert lo == |pre| && n == |post|;
      assert x[|pre|..|x| - |post|] == core;
    }
  }

  /** A text made of whitespace only. */
  predicate NoInk(s: string) {
    forall j :: 0 <= j < |s| ==> IsSpace(s[j])
  }

  /** Stage 4 as a whole. */
  function NormalizeSpaces(s: string): (r: string) {
    Strip(CollapseSpaces(s))
  }

  /** Stage 4 is `' '.join(s.split())`: every whitespace run between two words
      becomes one space and the runs at either end disappear. */
  lemma NormalizeSpacesIsJoinedWords(s: string)
    ensures NormalizeSpaces(s) == JoinSpace(Words(s))
  {
    if s == [] || !IsSpace(s[0]) {
      NormalizeFromWord(s);
    } else {
      var k := SpaceLen(s);
      WordsSkipSpaces(s, k);
      CollapseSpacesWords(s[k..]);
      NormalizeFromSpace(s, s[k..]);
    }
  }

  /** Stage 4 on a text that does not start with whitespace. */
  lemma NormalizeFromWord(s: string)
    requires s == [] || !IsSpace(s[0])
    ensures NormalizeSpaces(s) == JoinSpace(Words(s))
  {
    JoinWordsEnds(Words(s));
    CollapseSpacesWords(s);
    StripTrailing(CollapseSpaces(s), JoinSpace(Words(s)), if EndsInSpace(s) then " " else "");
  }

  /** `str.strip()` of a core followed by whitespace. */
  lemma StripTrailing(x: string, core: string, post: string)
    requires x == core + post && NoInk(post)
    requires core != [] ==> !IsSpace(core[0]) && !IsSpace(core[|core| - 1])
    ensures Strip(x) == core
  {
    assert x == [] + core + post;
    StripCore([], core, post);
  }

  /** Stage 4 on a text that starts with a whitespace run, before `t`. */
  lemma NormalizeFromSpace(s: string, t: string)
    requires s != [] && IsSpace(s[0]) && t == s[SpaceLen(s)..]
    requires Words(t) == Words(s)
    requires CollapseSpaces(t) == JoinSpace(Words(t)) + (if EndsInSpace(t) then " " else "")
    ensures NormalizeSpaces(s) == JoinSpace(Words(s))
  {
    var j := JoinSpace(Words(s));
    var tailT := if EndsInSpace(t) then " " else "";
    CollapseFromSpace(s, t, j, tailT);
    JoinedWordsEnds(s, j);
    StripOf(CollapseSpaces(s), " ", j, tailT);
  }

  /** Collapsing a text that opens with whitespace, from the collapsed rest. */
  lemma CollapseFromSpace(s: string, t: string, j: string, tail: string)
    requires s != [] && IsSpace(s[0]) && t == s[SpaceLen(s)..]
    requires CollapseSpaces(t) == j + tail
    ensures CollapseSpaces(s) == " " + j + tail
  {
    CollapseAtSpace(s);
    assert " " + (j + tail) == " " + j + tail;
  }

  /** The words of a text, joined, start and end with ink. */
  lemma JoinedWordsEnds(s: string, j: string)
    requires j == JoinSpace(Words(s))
    ensures j != [] ==> !IsSpace(j[0]) && !IsSpace(j[|j| - 1])
  {
    JoinWordsEnds(Words(s));
  }

  /** `StripCore` for a text given by name. */
  lemma StripOf(x: string, pre: string, core: string, post: string)
    requires x == pre + core + post && NoInk(pre) && NoInk(post)
    requires core != [] ==> !IsSpace(core[0]) && !IsSpace(core[|core| - 1])
    ensures Strip(x) == core
  {
    StripCore(pre, core, post);
  }

  /** Stage 4 always produces the normalized form, deletes or rewrites nothing
      but whitespace, and separates the words of its input by exactly one
      space each. */
  lemma NormalizeSpacesProperties(s: string)
    ensures Normalized(NormalizeSpaces(s))
    ensures Ink(NormalizeSpaces(s)) == Ink(s)
    ensures NormalizeSpaces(s) == JoinSpace(Words(s))
  {
    CollapseSpacesSingleSpaced(s);
    CollapseSpacesKeepsInk(s);
    StripKeepsInk(CollapseSpaces(s));
    StripShape(CollapseSpaces(s));
    NormalizeSpacesIsJoinedWords(s);
  }

  /** Stage 4 changes a text exactly when it is not already normalized. */
  lemma NormalizeSpacesIdentityIffNormalized(s: string)
    ensures NormalizeSpaces(s) == s <==> Normalized(s)
  {
    NormalizeSpacesProperties(s);
    if Normalized(s) {
      CollapseSpacesOnSingleSpaced(s);
      StripUntrimmed(s);
    }
  }

  // ---------------------------------------------------------------------
  // The whole sanitiser.
  // ---------------------------------------------------------------------

  /** `clean_comment`: tags, then links, then character references, then
      whitespace. */
  function CleanComment(comment: string): string {
    NormalizeSpaces(HtmlUnescape.Unescape(StripLinks(StripTags(comment))))
  }

  /** The sanitiser's output never starts or ends with whitespace, and each of
      its whitespace characters is a single plain space. */
  lemma CleanCommentNormalized(comment: string)
    ensures Normalized(CleanComment(comment))
    ensures CleanComment(comment)
            == JoinSpace(Words(HtmlUnescape.Unescape(StripLinks(StripTags(comment)))))
  {
    NormalizeSpacesProperties(HtmlUnescape.Unescape(StripLinks(StripTags(comment))));
  }

  /** A comment that holds no tag, no link and no '&', and is already
      single-spaced and trimmed, is returned unchanged; and conversely every
      text the sanitiser returns unchanged is normalized. */
  lemma CleanCommentFixedPoint(comment: string)
    ensures TagFree(comment) && LinkFree(comment) && '&' !in comment && Normalized(comment)
            ==> CleanComment(comment) == comment
    ensures CleanComment(comment) == comment ==> Normalized(comment)
  {
    CleanCommentNormalized(comment);
    if TagFree(comment) && LinkFree(comment) && '&' !in comment && Normalized(comment) {
      StripTagsIdentityIffTagFree(comment);
      StripLinksIdentityIffLinkFree(comment);
      HtmlUnescape.UnescapeWithoutAmpersand(comment);
      NormalizeSpacesIdentityIffNormalized(comment);
    }
  }

  /** Without '<' there is no tag. */
  lemma {:induction false} NoAngleIsTagFree(s: string)
    requires '<' !in s
    ensures TagFree(s)
    decreases |s|
  {
    if s != [] {
      assert '<' !in s[1..] by {
        forall j | 0 <= j < |s[1..]| ensures s[1..][j] != '<' { assert s[1..][j] == s[j + 1]; }
      }
      NoAngleIsTagFree(s[1..]);
    }
  }

  /** Without the substrings "http" and "www" there is no link. */
  lemma {:induction false} NoSchemeIsLinkFree(s: string)
    requires !Contains(s, "http") && !Contains(s, "www")
    ensures LinkFree(s)
    decreases |s|
  {
    if s != [] {
      assert !HasAt(s, 0, "http") && !HasAt(s, 0, "www");
      ContainsTail(s, "http");
      ContainsTail(s, "www");
      NoSchemeIsLinkFree(s[1..]);
    }
  }

  /** What the tail of a text contains, the text contains. */
  lemma ContainsTail(s: string, lit: string)
    requires s != []
    ensures Contains(s[1..], lit) ==> Contains(s, lit)
  {
    if Contains(s[1..], lit) {
      var k: nat :| k <= |s[1..]| && HasAt(s[1..], k, lit);
      assert s[k + 1..k + 1 + |lit|] == s[1..][k..k + |lit|];
      assert HasAt(s, k + 1, lit);
    }
  }

  /** A text that lacks the first character of `lit` does not contain `lit`. */
  lemma FirstCharAbsent(s: string, lit: string)
    requires lit != [] && lit[0] !in s
    ensures !Contains(s, lit)
  {
  }

  /** The plain form of the fixed-point property: no '<', no '&', no "http"
      or "www", single-spaced and trimmed means unchanged. */
  lemma CleanCommentUnchanged(comment: string)
    requires '<' !in comment && '&' !in comment
    requires !Contains(comment, "http") && !Contains(comment, "www")
    requires Normalized(comment)
    ensures CleanComment(comment) == comment
  {
    NoAngleIsTagFree(comment);
    NoSchemeIsLinkFree(comment);
    CleanCommentFixedPoint(comment);
  }

  // ---------------------------------------------------------------------
  // The stage order: an HTML-escaped comment passes stages 1 and 2 and is
  // only then unescaped, so tags written as character references survive.
  // ---------------------------------------------------------------------

  /** The characters `Escape` rewrites into a character reference. */
  predicate Special(c: char) {
    c == '&' || c == '<' || c == '>' || c == '"' || c == '\''
  }

  /** Escaping never produces a '<'. */
  lemma {:induction false} EscapeHasNoAngle(t: string)
    ensures '<' !in HtmlUnescape.Escape(t)
    decreases |t|
  {
    if t != [] {
      EscapeHasNoAngle(t[1..]);
      assert HtmlUnescape.Escape(t) == HtmlUnescape.EscapeChar(t[0]) + HtmlUnescape.Escape(t[1..]);
    }
  }

  /** The escaped form of a non-empty text starts with whitespace exactly
      when the text does. */
  lemma EscapeHead(v: string)
    requires v != []
    ensures HtmlUnescape.Escape(v) != []
    ensures IsSpace(HtmlUnescape.Escape(v)[0]) <==> IsSpace(v[0])
  {
    assert HtmlUnescape.Escape(v) == HtmlUnescape.EscapeChar(v[0]) + HtmlUnescape.Escape(v[1..]);
  }

  /** A literal free of special characters read at the start of an escaped
      text stands at the start of the text itself, and the escaped text goes
      on with the escaped rest. */
  lemma {:induction false} EscapeLiteral(u: string, lit: string)
    requires forall i :: 0 <= i < |lit| ==> !Special(lit[i])
    requires HasAt(HtmlUnescape.Escape(u), 0, lit)
    ensures HasAt(u, 0, lit)
    ensures HtmlUnescape.Escape(u)[|lit|..] == HtmlUnescape.Escape(u[|lit|..])
    decreases |lit|
  {
    var e := HtmlUnescape.Escape(u);
    if lit != [] {
      assert e[0] == lit[0];
      EscapePlainHead(u);
      assert HasAt(e[1..], 0, lit[1..]) by {
        assert e[1..][..|lit| - 1] == e[..|lit|][1..];
      }
      EscapeLiteral(u[1..], lit[1..]);
      assert u[..|lit|] == [u[0]] + u[1..][..|lit| - 1];
      assert lit == [lit[0]] + lit[1..];
      assert u[1..][|lit| - 1..] == u[|lit|..];
    }
  }

  /** An escaped text that opens with a plain character opens with the same
      character of the text, followed by the escaped rest. */
  lemma EscapePlainHead(u: string)
    requires HtmlUnescape.Escape(u) != [] && !Special(HtmlUnescape.Escape(u)[0])
    ensures u != [] && u[0] == HtmlUnescape.Escape(u)[0]
    ensures HtmlUnescape.Escape(u)[1..] == HtmlUnescape.Escape(u[1..])
  {
    var e := HtmlUnescape.Escape(u);
    assert e == HtmlUnescape.EscapeChar(u[0]) + HtmlUnescape.Escape(u[1..]);
    assert !Special(u[0]);
  }

  /** A link alternative that matches in an escaped text matches in the text. */
  lemma AltAtEscape(u: string, lit: string)
    requires lit == "http" || lit == "www" || lit == "https"
    requires AltAt(HtmlUnescape.Escape(u), lit)
    ensures AltAt(u, lit)
  {
    var e := HtmlUnescape.Escape(u);
    EscapeLiteral(u, lit);
    var v := u[|lit|..];
    assert e[|lit|..] == HtmlUnescape.Escape(v);
    assert v != [];
    EscapeHead(v);
    assert HtmlUnescape.Escape(v)[0] == e[|lit|];
    assert v[0] == u[|lit|];
  }

  /** Text without 'h' or 'w' in front of a link-free text adds no link. */
  lemma {:induction false} LinkFreeBehindPlain(x: string, rest: string)
    requires 'h' !in x && 'w' !in x && LinkFree(rest)
    ensures LinkFree(x + rest)
    decreases |x|
  {
    if x == [] {
      assert x + rest == rest;
    } else {
      var s := x + rest;
      assert s[0] == x[0];
      assert !HasAt(s, 0, "http") && !HasAt(s, 0, "www") && !HasAt(s, 0, "https") by {
        NotFirst(s, "http");
        NotFirst(s, "www");
        NotFirst(s, "https");
      }
      assert s[1..] == x[1..] + rest;
      LinkFreeBehindPlain(x[1..], rest);
    }
  }

  /** A literal at the start fixes the first character. */
  lemma NotFirst(s: string, lit: string)
    requires s != [] && lit != [] && s[0] != lit[0]
    ensures !HasAt(s, 0, lit)
  {
  }

  /** Escaping a link-free text keeps it link-free: a character reference
      holds neither 'h' nor 'w', and a link in the escaped text would be a
      link in the text. */
  lemma {:induction false} EscapeKeepsLinkFree(t: string)
    requires LinkFree(t)
    ensures LinkFree(HtmlUnescape.Escape(t))
    decreases |t|
  {
    if t != [] {
      var e := HtmlUnescape.Escape(t);
      var rest := HtmlUnescape.Escape(t[1..]);
      EscapeKeepsLinkFree(t[1..]);
      assert e == HtmlUnescape.EscapeChar(t[0]) + rest;
      if Special(t[0]) {
        LinkFreeBehindPlain(HtmlUnescape.EscapeChar(t[0]), rest);
      } else {
        assert e[1..] == rest;
        if AltAt(e, "http") { AltAtEscape(t, "http"); }
        if AltAt(e, "www") { AltAtEscape(t, "www"); }
        if AltAt(e, "https") { AltAtEscape(t, "https"); }
      }
    }
  }

  /** A normalized, link-free text that reaches the sanitiser HTML-escaped
      comes out as the text itself: escaping hides its tags from stage 1 and
      adds no link for stage 2, and stage 3 then restores every character,
      '<' and '>' included. */
  lemma EscapedTextSurvives(t: string)
    requires Normalized(t) && LinkFree(t)
    ensures CleanComment(HtmlUnescape.Escape(t)) == t
  {
    var e := HtmlUnescape.Escape(t);
    EscapeHasNoAngle(t);
    NoAngleIsTagFree(e);
    StripTagsIdentityIffTagFree(e);
    EscapeKeepsLinkFree(t);
    StripLinksIdentityIffLinkFree(e);
    HtmlUnescape.UnescapeEscape(t);
    NormalizeSpacesIdentityIffNormalized(t);
  }

  /** The same with the plain hypotheses: no "http" and no "www" anywhere. */
  lemma EscapedPlainTextSurvives(t: string)
    requires Normalized(t) && !Contains(t, "http") && !Contains(t, "www")
    ensures CleanComment(HtmlUnescape.Escape(t)) == t
  {
    NoSchemeIsLinkFree(t);
    EscapedTextSurvives(t);
  }

  /** The instance `&lt;b&gt;`, which comes out as the tag `<b>`. */
  lemma EscapedTagSurvives(s: string)
    requires s == "&lt;b&gt;"
    ensures CleanComment(s) == "<b>"
  {
    EscapedTagIsEscape(s);
    NoSpaceNormalized("<b>");
    FirstCharAbsent("<b>", "http");
    FirstCharAbsent("<b>", "www");
    EscapedPlainTextSurvives("<b>");
  }

  /** The unescaped tag holds no whitespace, so it is normalized. */
  lemma NoSpaceNormalized(t: string)
    requires t == "<b>"
    ensures Normalized(t)
  {
    assert !IsSpace(t[0]) && !IsSpace(t[1]) && !IsSpace(t[2]);
  }

  lemma EscapedTagIsEscape(s: string)
    requires s == "&lt;b&gt;"
    ensures s == HtmlUnescape.Escape("<b>")
  {
    assert HtmlUnescape.Escape("<b>") == "&lt;" + HtmlUnescape.Escape("b>") by {
      assert "<b>"[1..] == "b>";
    }
    assert HtmlUnescape.Escape("b>") == "b" + HtmlUnescape.Escape(">") by {
      assert "b>"[1..] == ">";
    }
    assert HtmlUnescape.Escape(">") == "&gt;" by {
      assert ">"[1..] == [];
    }
  }
}
