/** The extension's video-id extractor and host guard.

    The extractor is the regular expression
      (?:https?://)?(?:www\.)?(?:youtube\.com/(?:watch\?(?:.*&)?v=|embed/|v/)|youtu\.be/)([a-zA-Z0-9_-]{11})
    under JavaScript `String.prototype.match` (no global flag): the leftmost
    starting position that admits a match wins, and at that position the
    alternatives are tried in the backtracking order of the pattern (an
    optional group is tried with its content first, `s?` with the `s` first,
    alternatives from left to right, `.*` longest first). Each function below
    answers the id the first successful path captures from a position. */
module VideoId {
  import opened Results
  import opened Text

  const IdLength: nat := 11

  /** `[a-zA-Z0-9_-]` */
  predicate IsIdChar(c: char) {
    ('a' <= c <= 'z') || ('A' <= c <= 'Z') || ('0' <= c <= '9') || c == '_' || c == '-'
  }

  /** JavaScript's line terminators, the characters `.` does not match. */
  predicate IsLineTerminator(c: char) {
    c == '\n' || c == '\r' || c == '\U{2028}' || c == '\U{2029}'
  }

  /** An absent id, or eleven id characters. */
  predicate WellFormed(r: Option<string>) {
    r.Some? ==> |r.value| == IdLength && forall i :: 0 <= i < |r.value| ==> IsIdChar(r.value[i])
  }

  /** An absent id, or one that occurs in `s`: the id is copied out of the
      address. */
  ghost predicate TakenFrom(s: string, r: Option<string>) {
    r.Some? ==> exists p: nat :: HasAt(s, p, r.value)
  }

  /** Either alternative that is well formed gives a well-formed choice. */
  lemma FirstSomeWellFormed(a: Option<string>, b: Option<string>)
    requires WellFormed(a) && WellFormed(b)
    ensures WellFormed(FirstSome(a, b))
  {
  }

  /** The capture group `([a-zA-Z0-9_-]{11})` at position `k`. */
  function IdAt(s: string, k: nat): (r: Option<string>)
    ensures WellFormed(r)
    ensures r.Some? <==> k + IdLength <= |s| && forall i :: k <= i < k + IdLength ==> IsIdChar(s[i])
    ensures r.Some? ==> r.value == s[k..k + IdLength]
  {
    if k + IdLength <= |s| && forall i :: k <= i < k + IdLength ==> IsIdChar(s[i])
    then Some(s[k..k + IdLength]) else None
  }

  /** `v=` followed by the id, at position `k`. */
  function VAt(s: string, k: nat): (r: Option<string>)
    ensures WellFormed(r)
    ensures r.Some? ==> HasAt(s, k, "v=")
  {
    if HasAt(s, k, "v=") then IdAt(s, k + 2) else None
  }

  /** The end of the longest `.*` run from `k`: the first line terminator at
      or after `k`, or the end of the text. */
  function DotEnd(s: string, k: nat): (e: nat)
    requires k <= |s|
    ensures k <= e <= |s|
    ensures forall i :: k <= i < e ==> !IsLineTerminator(s[i])
    ensures e < |s| ==> IsLineTerminator(s[e])
    decreases |s| - k
  {
    if k == |s| || IsLineTerminator(s[k]) then k else DotEnd(s, k + 1)
  }

  /** The group `(?:.*&)?` taken, with `.*` ending before position `m + 1` and
      tried from the longest run down: the `&` at the largest position at most
      `m` from which `v=` and an id follow (see `AmpTryFinds`). */
  function AmpTry(s: string, k: nat, m: int): (r: Option<string>)
    requires m < |s|
    ensures WellFormed(r)
    decreases m - k + 1
  {
    if m < k then None
    else
      var here := if s[m] == '&' then VAt(s, m + 1) else None;
      FirstSome(here, AmpTry(s, k, m - 1))
  }

  /** `AmpTry` finds an id exactly when some `&` in range is followed by `v=`
      and an id, and then it takes the last such `&`. */
  lemma {:induction false} AmpTryFinds(s: string, k: nat, m: int)
    requires m < |s|
    ensures AmpTry(s, k, m).Some? <==> exists p :: k <= p <= m && s[p] == '&' && VAt(s, p + 1).Some?
    ensures AmpTry(s, k, m).Some? ==>
              exists p :: k <= p <= m && s[p] == '&' && VAt(s, p + 1) == AmpTry(s, k, m)
                && forall q :: p < q <= m && s[q] == '&' ==> VAt(s, q + 1).None?
    decreases m - k + 1
  {
    if m >= k {
      if s[m] == '&' && VAt(s, m + 1).Some? {
        // the longest `.*` ends just before this `&`
        assert k <= m <= m && s[m] == '&' && VAt(s, m + 1) == AmpTry(s, k, m);
      } else {
        // backtrack: `.*` gives up one more character
        AmpTryFinds(s, k, m - 1);
        assert forall p :: k <= p <= m && s[p] == '&' && VAt(s, p + 1).Some? ==> p < m;
      }
    }
  }

  /** After `watch?`: first the group `(?:.*&)?` taken, then skipped. */
  function WatchAt(s: string, k: nat): (r: Option<string>)
    requires k <= |s|
    ensures WellFormed(r)
  {
    FirstSome(AmpTry(s, k, DotEnd(s, k) - 1), VAt(s, k))
  }

  /** `youtube.com/` or `youtu.be/` occurs at `p`. */
  predicate HostAt(s: string, p: nat) {
    HasAt(s, p, "youtube.com/") || HasAt(s, p, "youtu.be/")
  }

  /** The host alternation and what follows it, at position `k`. */
  function HostPathAt(s: string, k: nat): (r: Option<string>)
    ensures WellFormed(r)
    ensures r.Some? ==> HostAt(s, k)
  {
    var youtube :=
      if HasAt(s, k, "youtube.com/") then
        var j := k + 12;
        FirstSome(if HasAt(s, j, "watch?") then WatchAt(s, j + 6) else None,
                  FirstSome(if HasAt(s, j, "embed/") then IdAt(s, j + 6) else None,
                            if HasAt(s, j, "v/") then IdAt(s, j + 2) else None))
      else None;
    var short := if HasAt(s, k, "youtu.be/") then IdAt(s, k + 9) else None;
    FirstSome(youtube, short)
  }

  /** `(?:www\.)?` and the rest, at position `k`. */
  function WwwAt(s: string, k: nat): (r: Option<string>)
    ensures WellFormed(r)
    ensures r.Some? ==> HostAt(s, k) || HostAt(s, k + 4)
  {
    FirstSome(if HasAt(s, k, "www.") then HostPathAt(s, k + 4) else None, HostPathAt(s, k))
  }

  /** The whole pattern anchored at position `k`. */
  function MatchAt(s: string, k: nat): (r: Option<string>)
    ensures WellFormed(r)
    ensures r.Some? ==> exists p: nat :: k <= p <= k + 12 && HostAt(s, p)
  {
    var https := if HasAt(s, k, "https://") then WwwAt(s, k + 8) else None;
    var http := if HasAt(s, k, "http://") then WwwAt(s, k + 7) else None;
    FirstSome(https, FirstSome(http, WwwAt(s, k)))
  }

  /** The leftmost starting position at or after `k` that admits a match. */
  function SearchFrom(s: string, k: nat): (r: Option<string>)
    requires k <= |s|
    ensures WellFormed(r)
    ensures r.Some? ==> exists p: nat :: k <= p && HostAt(s, p)
    decreases |s| - k
  {
    if k == |s| then MatchAt(s, k)
    else FirstSome(MatchAt(s, k), SearchFrom(s, k + 1))
  }

  /** `getYouTubeVideoId`: the captured id, or null. */
  function GetVideoId(url: string): (r: Option<string>)
    ensures WellFormed(r)
    ensures r.Some? ==> exists p: nat :: HostAt(url, p)
  {
    SearchFrom(url, 0)
  }

  /** The popup's guard: the address mentions one of the two hosts. */
  predicate HostGuard(url: string) {
    Contains(url, "youtube.com") || Contains(url, "youtu.be")
  }

  /** An address from which an id is extracted always passes the guard, so the
      guard never turns away an address that has an id. */
  lemma ExtractedPassesGuard(url: string)
    requires GetVideoId(url).Some?
    ensures HostGuard(url)
  {
    var p: nat :| HostAt(url, p);
    if HasAt(url, p, "youtube.com/") {
      assert "youtube.com/" == "youtube.com" + "/";
      SplitAt(url, p, "youtube.com", "/");
    } else {
      assert "youtu.be/" == "youtu.be" + "/";
      SplitAt(url, p, "youtu.be", "/");
    }
  }

  /** An address that contains neither host path yields no id. */
  lemma NoHostNoId(url: string)
    requires forall p: nat :: !HostAt(url, p)
    ensures GetVideoId(url).None?
  {
  }

  // ---------------------------------------------------------------------
  // The id is copied out of the address
  // ---------------------------------------------------------------------

  lemma VAtTaken(s: string, k: nat)
    ensures TakenFrom(s, VAt(s, k))
  {
    if VAt(s, k).Some? {
      assert HasAt(s, k + 2, VAt(s, k).value);
    }
  }

  lemma AmpTryTaken(s: string, k: nat, m: int)
    requires m < |s|
    ensures TakenFrom(s, AmpTry(s, k, m))
  {
    var r := AmpTry(s, k, m);
    if r.Some? {
      AmpTryFinds(s, k, m);
      var p :| k <= p <= m && s[p] == '&' && VAt(s, p + 1) == r;
      VAtTaken(s, p + 1);
    }
  }

  lemma WatchAtTaken(s: string, k: nat)
    requires k <= |s|
    ensures TakenFrom(s, WatchAt(s, k))
  {
    var amp := AmpTry(s, k, DotEnd(s, k) - 1);
    if amp.Some? {
      AmpTryTaken(s, k, DotEnd(s, k) - 1);
      assert WatchAt(s, k) == amp;
    } else {
      VAtTaken(s, k);
      assert WatchAt(s, k) == VAt(s, k);
    }
  }

  lemma HostPathAtTaken(s: string, k: nat)
    ensures TakenFrom(s, HostPathAt(s, k))
  {
    var r := HostPathAt(s, k);
    if r.Some? {
      var j := k + 12;
      if HasAt(s, k, "youtube.com/") && HasAt(s, j, "watch?") && WatchAt(s, j + 6).Some? {
        WatchAtTaken(s, j + 6);
      } else if HasAt(s, k, "youtube.com/") && HasAt(s, j, "embed/") && IdAt(s, j + 6).Some? {
        assert HasAt(s, j + 6, r.value);
      } else if HasAt(s, k, "youtube.com/") && HasAt(s, j, "v/") && IdAt(s, j + 2).Some? {
        assert HasAt(s, j + 2, r.value);
      } else {
        assert HasAt(s, k + 9, r.value);
      }
    }
  }

  lemma WwwAtTaken(s: string, k: nat)
    ensures TakenFrom(s, WwwAt(s, k))
  {
    HostPathAtTaken(s, k + 4);
    HostPathAtTaken(s, k);
  }

  lemma MatchAtTaken(s: string, k: nat)
    ensures TakenFrom(s, MatchAt(s, k))
  {
    WwwAtTaken(s, k + 8);
    WwwAtTaken(s, k + 7);
    WwwAtTaken(s, k);
  }

  lemma {:induction false} SearchFromTaken(s: string, k: nat)
    requires k <= |s|
    ensures TakenFrom(s, SearchFrom(s, k))
    decreases |s| - k
  {
    MatchAtTaken(s, k);
    if k < |s| {
      SearchFromTaken(s, k + 1);
    }
  }

  /** The id `getYouTubeVideoId` answers is a part of the address. */
  lemma GetVideoIdTaken(url: string)
    ensures GetVideoId(url).Some? ==> exists p: nat :: HasAt(url, p, GetVideoId(url).value)
  {
    SearchFromTaken(url, 0);
  }

  // ---------------------------------------------------------------------
  // The address forms the extractor accepts
  // ---------------------------------------------------------------------

  predicate IsScheme(scheme: string) {
    scheme == "https://" || scheme == "http://" || scheme == ""
  }

  predicate IsWww(www: string) {
    www == "www." || www == ""
  }

  predicate IsId(id: string) {
    |id| == IdLength && forall i :: 0 <= i < |id| ==> IsIdChar(id[i])
  }

  /** A match at the very start is the one reported. */
  lemma MatchAtStart(s: string)
    requires MatchAt(s, 0).Some?
    ensures GetVideoId(s) == MatchAt(s, 0)
  {
  }

  /** Each part of a concatenation of four sits at its offset. */
  lemma PartsAt(a: string, b: string, c: string, d: string)
    ensures HasAt(a + b + c + d, 0, a)
    ensures HasAt(a + b + c + d, |a|, b)
    ensures HasAt(a + b + c + d, |a| + |b|, c)
    ensures HasAt(a + b + c + d, |a| + |b| + |c|, d)
  {
    var s := a + b + c + d;
    assert s[0..|a|] == a;
    assert s[|a|..|a| + |b|] == b;
    assert s[|a| + |b|..|a| + |b| + |c|] == c;
    assert s[|a| + |b| + |c|..|s|] == d;
  }

  /** Each part of a concatenation of five sits at its offset. */
  lemma FiveParts(s: string, a: string, b: string, c: string, d: string, e: string)
    requires s == a + b + c + d + e
    ensures HasAt(s, 0, a) && HasAt(s, |a|, b) && HasAt(s, |a| + |b|, c)
    ensures HasAt(s, |a| + |b| + |c|, d) && HasAt(s, |a| + |b| + |c| + |d|, e)
  {
    PartsAt(a, b, c, d + e);
    assert s == a + b + c + (d + e);
    SplitAt(s, |a| + |b| + |c|, d, e);
  }

  /** A literal at `k` fixes each character it covers. */
  lemma CharOf(s: string, k: nat, lit: string, i: nat)
    requires HasAt(s, k, lit) && i < |lit|
    ensures s[k + i] == lit[i]
  {
    assert s[k..k + |lit|][i] == s[k + i];
  }

  /** One differing character rules a literal out. */
  lemma NotAt(s: string, k: nat, lit: string, i: nat)
    requires i < |lit| && k + i < |s| && s[k + i] != lit[i]
    ensures !HasAt(s, k, lit)
  {
    if HasAt(s, k, lit) {
      CharOf(s, k, lit, i);
    }
  }

  /** A literal made of two parts has each part at its offset. */
  lemma SplitAt(s: string, k: nat, a: string, b: string)
    requires HasAt(s, k, a + b)
    ensures HasAt(s, k, a) && HasAt(s, k + |a|, b)
  {
    assert s[k..k + |a|] == s[k..k + |a| + |b|][..|a|];
    assert s[k + |a|..k + |a| + |b|] == s[k..k + |a| + |b|][|a|..];
  }

  /** The id at an address part. */
  lemma IdOf(s: string, k: nat, id: string)
    requires IsId(id) && HasAt(s, k, id)
    ensures IdAt(s, k) == Some(id)
  {
    forall i | k <= i < k + IdLength ensures IsIdChar(s[i]) {
      CharOf(s, k, id, i - k);
    }
  }

  lemma ShortPath(s: string, k: nat, id: string)
    requires HasAt(s, k, "youtu.be/") && IsId(id) && HasAt(s, k + 9, id)
    ensures HostPathAt(s, k) == Some(id)
  {
    CharOf(s, k, "youtu.be/", 5);
    NotAt(s, k, "youtube.com/", 5);
    IdOf(s, k + 9, id);
  }

  lemma EmbedPath(s: string, k: nat, id: string)
    requires HasAt(s, k, "youtube.com/") && HasAt(s, k + 12, "embed/")
    requires IsId(id) && HasAt(s, k + 18, id)
    ensures HostPathAt(s, k) == Some(id)
  {
    CharOf(s, k + 12, "embed/", 0);
    NotAt(s, k + 12, "watch?", 0);
    IdOf(s, k + 18, id);
  }

  lemma VPath(s: string, k: nat, id: string)
    requires HasAt(s, k, "youtube.com/") && HasAt(s, k + 12, "v/")
    requires IsId(id) && HasAt(s, k + 14, id)
    ensures HostPathAt(s, k) == Some(id)
  {
    CharOf(s, k + 12, "v/", 0);
    NotAt(s, k + 12, "watch?", 0);
    NotAt(s, k + 12, "embed/", 0);
    IdOf(s, k + 14, id);
  }

  /** A `watch?` query at `k`: what the query part captures. */
  lemma WatchPath(s: string, k: nat)
    requires HasAt(s, k, "youtube.com/") && HasAt(s, k + 12, "watch?")
    requires k + 18 <= |s| && WatchAt(s, k + 18).Some?
    ensures HostPathAt(s, k) == WatchAt(s, k + 18)
  {
  }

  /** The optional `www.` in front of a host that matches. */
  lemma WwwPrefix(s: string, k: nat, www: string)
    requires IsWww(www) && HasAt(s, k, www)
    requires k + |www| < |s| && s[k + |www|] == 'y'
    requires HostPathAt(s, k + |www|).Some?
    ensures WwwAt(s, k) == HostPathAt(s, k + |www|)
  {
    if www == "" {
      NotAt(s, k, "www.", 0);
    }
  }

  /** The optional scheme in front of an address that matches. */
  lemma SchemePrefix(s: string, scheme: string)
    requires IsScheme(scheme) && HasAt(s, 0, scheme)
    requires |scheme| < |s| && (s[|scheme|] == 'w' || s[|scheme|] == 'y')
    requires WwwAt(s, |scheme|).Some?
    ensures MatchAt(s, 0) == WwwAt(s, |scheme|)
  {
    if scheme == "http://" {
      CharOf(s, 0, scheme, 4);
      NotAt(s, 0, "https://", 4);
    } else if scheme == "" {
      NotAt(s, 0, "https://", 0);
      NotAt(s, 0, "http://", 0);
    }
  }

  /** The prefixes in front of a host path that yields `r`. */
  lemma Prefixes(s: string, scheme: string, www: string, r: Option<string>)
    requires IsScheme(scheme) && IsWww(www)
    requires HasAt(s, 0, scheme) && HasAt(s, |scheme|, www)
    requires |scheme| + |www| < |s| && s[|scheme| + |www|] == 'y'
    requires r.Some? && HostPathAt(s, |scheme| + |www|) == r
    ensures GetVideoId(s) == r
  {
    WwwPrefix(s, |scheme|, www);
    if www == "www." {
      CharOf(s, |scheme|, www, 0);
    }
    SchemePrefix(s, scheme);
    MatchAtStart(s);
  }

  /** The three direct paths, each followed by an id, at `k`. */
  lemma DirectPath(s: string, k: nat, path: string, id: string)
    requires path == "youtu.be/" || path == "youtube.com/embed/" || path == "youtube.com/v/"
    requires HasAt(s, k, path) && IsId(id) && HasAt(s, k + |path|, id)
    ensures HostPathAt(s, k) == Some(id)
  {
    if path == "youtu.be/" {
      ShortPath(s, k, id);
    } else if path == "youtube.com/embed/" {
      assert path == "youtube.com/" + "embed/";
      SplitAt(s, k, "youtube.com/", "embed/");
      EmbedPath(s, k, id);
    } else {
      assert path == "youtube.com/" + "v/";
      SplitAt(s, k, "youtube.com/", "v/");
      VPath(s, k, id);
    }
  }

  /** Where the parts of a direct address sit. */
  lemma DirectParts(scheme: string, www: string, path: string, id: string, rest: string)
    requires |path| > 0 && path[0] == 'y'
    ensures var s := scheme + www + path + id + rest;
            var k := |scheme| + |www|;
            HasAt(s, 0, scheme) && HasAt(s, |scheme|, www) && HasAt(s, k, path)
            && HasAt(s, k + |path|, id) && k < |s| && s[k] == 'y'
  {
    var s := scheme + www + path + id + rest;
    var k := |scheme| + |www|;
    FiveParts(s, scheme, www, path, id, rest);
    CharOf(s, k, path, 0);
  }

  /** `youtu.be/ID`, `youtube.com/embed/ID` and `youtube.com/v/ID`, with any
      of the scheme and `www.` prefixes and anything after the id, yield
      `ID`. */
  lemma DirectForms(scheme: string, www: string, path: string, id: string, rest: string)
    requires IsScheme(scheme) && IsWww(www) && IsId(id)
    requires path == "youtu.be/" || path == "youtube.com/embed/" || path == "youtube.com/v/"
    ensures GetVideoId(scheme + www + path + id + rest) == Some(id)
  {
    DirectParts(scheme, www, path, id, rest);
    DirectFormAt(scheme + www + path + id + rest, scheme, www, path, id);
  }

  lemma DirectFormAt(s: string, scheme: string, www: string, path: string, id: string)
    requires IsScheme(scheme) && IsWww(www) && IsId(id)
    requires path == "youtu.be/" || path == "youtube.com/embed/" || path == "youtube.com/v/"
    requires var k := |scheme| + |www|;
             HasAt(s, 0, scheme) && HasAt(s, |scheme|, www) && HasAt(s, k, path)
             && HasAt(s, k + |path|, id) && k < |s| && s[k] == 'y'
    ensures GetVideoId(s) == Some(id)
  {
    DirectPath(s, |scheme| + |www|, path, id);
    Prefixes(s, scheme, www, Some(id));
  }

  /** The `&` nearest to `m` that starts a `v=` id is the one whose id is
      captured. */
  lemma {:induction false} AmpTryLast(s: string, k: nat, m: int, a: nat, id: string)
    requires m < |s| && k <= a <= m
    requires s[a] == '&' && VAt(s, a + 1) == Some(id)
    requires forall p :: a < p <= m ==> s[p] != '&'
    ensures AmpTry(s, k, m) == Some(id)
    decreases m - a
  {
    if m > a {
      AmpTryLast(s, k, m - 1, a, id);
    }
  }

  /** The id after `v=` at `k`. */
  lemma VOf(s: string, k: nat, id: string)
    requires IsId(id) && HasAt(s, k, "v=" + id)
    ensures VAt(s, k) == Some(id)
  {
    SplitAt(s, k, "v=", id);
    IdOf(s, k + 2, id);
  }

  /** The query part when its last `&` before the end of the line, at `a`, is
      followed by `v=` and an id. */
  lemma WatchQueryLastAmp(s: string, j: nat, a: nat, id: string)
    requires j <= a < |s| && s[a] == '&' && VAt(s, a + 1) == Some(id)
    requires forall p :: j <= p < a ==> !IsLineTerminator(s[p])
    requires forall p :: a < p < |s| ==> s[p] != '&'
    ensures WatchAt(s, j) == Some(id)
  {
    var e := DotEnd(s, j);
    assert a < e;
    assert AmpTry(s, j, e - 1) == Some(id) by { AmpTryLast(s, j, e - 1, a, id); }
  }

  /** The query part when no `&` follows `j`. */
  lemma WatchQueryNoAmp(s: string, j: nat, id: string)
    requires j <= |s| && VAt(s, j) == Some(id)
    requires forall p :: j <= p < |s| ==> s[p] != '&'
    ensures WatchAt(s, j) == Some(id)
  {
    AmpTryFinds(s, j, DotEnd(s, j) - 1);
  }

  /** The scheme, `www.` and `youtube.com/watch?` in front of a query that
      starts at `j`. */
  lemma WatchPrefixes(s: string, scheme: string, www: string, path: string, tail: string, rest: string)
    requires path == "youtube.com/watch?" && s == scheme + www + path + tail + rest
    ensures var k := |scheme| + |www|;
            HasAt(s, 0, scheme) && HasAt(s, |scheme|, www) && k + 18 <= |s|
            && HasAt(s, k, "youtube.com/") && HasAt(s, k + 12, "watch?") && s[k] == 'y'
            && HasAt(s, k + 18, tail) && HasAt(s, k + 18 + |tail|, rest)
  {
    var k := |scheme| + |www|;
    FiveParts(s, scheme, www, path, tail, rest);
    assert path == "youtube.com/" + "watch?";
    SplitAt(s, k, "youtube.com/", "watch?");
    CharOf(s, k, path, 0);
  }

  /** The query `v=ID` followed by a text without `&`, at `j`. */
  lemma DirectQueryFacts(s: string, j: nat, id: string, rest: string)
    requires IsId(id) && '&' !in rest
    requires HasAt(s, j, "v=" + id) && HasAt(s, j + 2 + |id|, rest)
    requires |s| == j + 2 + |id| + |rest|
    ensures VAt(s, j) == Some(id)
    ensures forall p :: j <= p < |s| ==> s[p] != '&'
  {
    var tail := "v=" + id;
    forall p | j <= p < |s| ensures s[p] != '&' {
      if p < j + |tail| {
        CharOf(s, j, tail, p - j);
        if p >= j + 2 { assert tail[p - j] == id[p - j - 2]; }
      } else {
        CharOf(s, j + |tail|, rest, p - j - |tail|);
      }
    }
    VOf(s, j, id);
  }

  /** `youtube.com/watch?v=ID` yields `ID` when no `&` follows the id. */
  lemma WatchForm(scheme: string, www: string, id: string, rest: string)
    requires IsScheme(scheme) && IsWww(www) && IsId(id)
    requires '&' !in rest
    ensures GetVideoId(scheme + www + "youtube.com/watch?" + ("v=" + id) + rest) == Some(id)
  {
    var tail := "v=" + id;
    var s := scheme + www + "youtube.com/watch?" + tail + rest;
    var j := |scheme| + |www| + 18;
    WatchPrefixes(s, scheme, www, "youtube.com/watch?", tail, rest);
    DirectQueryFacts(s, j, id, rest);
    WatchQueryNoAmp(s, j, id);
    WatchPath(s, j - 18);
    Prefixes(s, scheme, www, Some(id));
  }

  /** The query `<query>&v=ID` followed by a text without `&`, at `j`. */
  lemma QueryFacts(s: string, j: nat, query: string, id: string, rest: string)
    requires IsId(id) && '&' !in rest
    requires forall i :: 0 <= i < |query| ==> !IsLineTerminator(query[i])
    requires HasAt(s, j, query + "&v=" + id) && HasAt(s, j + |query| + 3 + |id|, rest)
    requires |s| == j + |query| + 3 + |id| + |rest|
    ensures var a := j + |query|;
            a < |s| && s[a] == '&' && VAt(s, a + 1) == Some(id)
            && (forall p :: j <= p < a ==> !IsLineTerminator(s[p]))
            && (forall p :: a < p < |s| ==> s[p] != '&')
  {
    var a := j + |query|;
    assert query + "&v=" + id == query + ("&" + ("v=" + id));
    SplitAt(s, j, query, "&" + ("v=" + id));
    SplitAt(s, a, "&", "v=" + id);
    CharOf(s, a, "&", 0);
    DirectQueryFacts(s, a + 1, id, rest);
    forall p | j <= p < a ensures !IsLineTerminator(s[p]) {
      CharOf(s, j, query, p - j);
    }
  }

  /** `WatchAt` on the query `<query>&v=ID` followed by a text without `&`. */
  lemma QueryWatch(s: string, j: nat, query: string, id: string, rest: string)
    requires IsId(id) && '&' !in rest
    requires forall i :: 0 <= i < |query| ==> !IsLineTerminator(query[i])
    requires HasAt(s, j, query + "&v=" + id) && HasAt(s, j + |query| + 3 + |id|, rest)
    requires |s| == j + |query| + 3 + |id| + |rest|
    ensures WatchAt(s, j) == Some(id)
  {
    QueryFacts(s, j, query, id, rest);
    WatchQueryLastAmp(s, j, j + |query|, id);
  }

  /** `youtube.com/watch?<query>&v=ID` yields `ID` when the query stays on one
      line and no `&` follows the id: the greedy `.*&` settles on the last
      `&`. The query may itself hold other `&` and even another `v=`. */
  lemma WatchAfterParams(scheme: string, www: string, query: string, id: string, rest: string)
    requires IsScheme(scheme) && IsWww(www) && IsId(id)
    requires forall i :: 0 <= i < |query| ==> !IsLineTerminator(query[i])
    requires '&' !in rest
    ensures GetVideoId(scheme + www + "youtube.com/watch?" + (query + "&v=" + id) + rest) == Some(id)
  {
    var tail := query + "&v=" + id;
    var s := scheme + www + "youtube.com/watch?" + tail + rest;
    var k := |scheme| + |www|;
    var j := k + 18;
    assert HasAt(s, 0, scheme) && HasAt(s, |scheme|, www) && j <= |s| && s[k] == 'y'
      && HasAt(s, k, "youtube.com/") && HasAt(s, k + 12, "watch?")
      && HasAt(s, j, tail) && HasAt(s, j + |tail|, rest) by {
      WatchPrefixes(s, scheme, www, "youtube.com/watch?", tail, rest);
    }
    QueryWatch(s, j, query, id, rest);
    assert HostPathAt(s, k) == Some(id) by { WatchPath(s, k); }
    Prefixes(s, scheme, www, Some(id));
  }
}
