/** The extension popup: the table of the three sentiment bars, whose width,
    percentage label and tooltip are rewritten in place, and the click handler
    of the analysis button up to the request it sends to the backend. */
module Popup {
  import opened Results
  import VideoId

  // ---------------------------------------------------------------------
  // Percent texts
  // ---------------------------------------------------------------------

  function DigitChar(d: nat): (c: char)
    requires d < 10
    ensures '0' <= c <= '9' && (c as int) - ('0' as int) == d
  {
    (('0' as int) + d) as char
  }

  /** The decimal digits of `n`, without leading zeros. */
  function NatDigits(n: nat): (s: string)
    ensures |s| >= 1 && forall i :: 0 <= i < |s| ==> '0' <= s[i] <= '9'
    ensures |s| > 1 ==> s[0] != '0'
    decreases n
  {
    if n < 10 then [DigitChar(n)] else NatDigits(n / 10) + [DigitChar(n % 10)]
  }

  /** JavaScript's conversion of an integral number to text, as `percent + '%'`
      performs it (integers below 10^21 in magnitude print as plain decimals). */
  function Decimal(n: int): (s: string)
    ensures |s| >= 1
    ensures n >= 0 <==> s[0] != '-'
  {
    if n < 0 then "-" + NatDigits(-n) else NatDigits(n)
  }

  /** The reading of a digit string, the inverse of `NatDigits`. */
  function ParseNat(s: string): int
    decreases |s|
  {
    if s == [] then 0 else 10 * ParseNat(s[..|s| - 1]) + ((s[|s| - 1] as int) - ('0' as int))
  }

  function ParseDecimal(s: string): int {
    if |s| > 0 && s[0] == '-' then -ParseNat(s[1..]) else ParseNat(s)
  }

  lemma {:induction false} ParseNatDigits(n: nat)
    ensures ParseNat(NatDigits(n)) == n
    decreases n
  {
    if n >= 10 {
      var s := NatDigits(n);
      assert s[..|s| - 1] == NatDigits(n / 10);
      ParseNatDigits(n / 10);
    }
  }

  /** The printed number reads back as the number: distinct percentages give
      distinct texts. */
  lemma ParseDecimalInverse(n: int)
    ensures ParseDecimal(Decimal(n)) == n
  {
    if n < 0 {
      assert Decimal(n)[1..] == NatDigits(-n);
      ParseNatDigits(-n);
    } else {
      ParseNatDigits(n);
    }
  }

  /** `percent + '%'` */
  function Percent(n: int): (s: string)
    ensures |s| >= 2 && s[|s| - 1] == '%'
    ensures ParseDecimal(s[..|s| - 1]) == n
  {
    var s := Decimal(n) + "%";
    assert s[..|s| - 1] == Decimal(n);
    ParseDecimalInverse(n);
    s
  }

  // ---------------------------------------------------------------------
  // The bar table
  // ---------------------------------------------------------------------

  /** One entry of the table: its sentiment key and the three texts the popup
      shows for it (the bar's CSS width, the percentage label, the tooltip). */
  datatype Bar = Bar(key: string, width: string, value: string, tooltip: string)

  /** The entry of `b` showing `text` everywhere. */
  function Showing(b: Bar, text: string): (r: Bar)
    ensures r.key == b.key && r.width == text && r.value == text && r.tooltip == text
  {
    b.(width := text, value := text, tooltip := text)
  }

  class SentimentTable {
    const entries: array<Bar>

    /** The table holds the three sentiments in their fixed order. */
    predicate Valid()
      reads this, entries
    {
      entries.Length == 3
      && entries[0].key == "positive" && entries[1].key == "neutral" && entries[2].key == "negative"
    }

    /** The table before the page has set any text. */
    constructor ()
      ensures Valid() && fresh(entries)
      ensures forall j :: 0 <= j < entries.Length ==>
                entries[j].width == "" && entries[j].value == "" && entries[j].tooltip == ""
    {
      entries := new Bar[3] [Bar("positive", "", "", ""), Bar("neutral", "", "", ""),
                             Bar("negative", "", "", "")];
    }

    /** `sentiments.find(s => s.key === key)`: the position of the first entry
      with that key, or -1 when there is none. */
    method Find(key: string) returns (i: int)
      ensures -1 <= i < entries.Length
      ensures i >= 0 ==> entries[i].key == key && forall j :: 0 <= j < i ==> entries[j].key != key
      ensures i == -1 <==> forall j :: 0 <= j < entries.Length ==> entries[j].key != key
    {
      i := 0;
      while i < entries.Length
        invariant 0 <= i <= entries.Length
        invariant forall j :: 0 <= j < i ==> entries[j].key != key
      {
        if entries[i].key == key {
          return;
        }
        i := i + 1;
      }
      i := -1;
    }

    /** On a valid table the key names exactly one entry. */
    lemma FindsTheOnlyEntry(key: string, i: int)
      requires Valid() && 0 <= i < entries.Length && entries[i].key == key
      ensures forall j :: 0 <= j < entries.Length && j != i ==> entries[j].key != key
    {
    }

    /** `setSentimentBar`: the entry of `kind` shows `percent%` in its three
        places; the other entries, and every entry when `kind` is none of the
        three keys, are unchanged. */
    method SetSentimentBar(kind: string, percent: int)
      requires Valid()
      modifies entries
      ensures Valid()
      ensures forall j :: 0 <= j < entries.Length ==>
                entries[j] == (if old(entries[j]).key == kind then Showing(old(entries[j]), Percent(percent))
                               else old(entries[j]))
      ensures (forall j :: 0 <= j < entries.Length ==> old(entries[j]).key != kind)
                ==> entries[..] == old(entries[..])
    {
      var i := Find(kind);
      if i == -1 {
        return;
      }
      FindsTheOnlyEntry(kind, i);
      entries[i] := Showing(entries[i], Percent(percent));
    }

    /** `resetBars`: every entry shows `0%`. */
    method ResetBars()
      requires Valid()
      modifies entries
      ensures Valid()
      ensures forall j :: 0 <= j < entries.Length ==> entries[j] == Showing(old(entries[j]), "0%")
    {
      for i := 0 to entries.Length
        invariant forall j :: 0 <= j < i ==> entries[j] == Showing(old(entries[j]), "0%")
        invariant forall j :: i <= j < entries.Length ==> entries[j] == old(entries[j])
      {
        entries[i] := Showing(entries[i], "0%");
      }
    }
  }

  // ---------------------------------------------------------------------
  // The analysis button
  // ---------------------------------------------------------------------

  const BackendUrl: string := "http://127.0.0.1:5000"

  /** The popup's visible state: the status line (its text and whether it is
      displayed), the start button, which of the two views is shown, and the
      bars. */
  class PopupView {
    var status: string
    var statusShown: bool
    var buttonDisabled: bool
    var resultsShown: bool
    const bars: SentimentTable

    predicate Valid()
      reads this, bars, bars.entries
    {
      bars.Valid()
    }

    constructor ()
      ensures Valid() && fresh(bars) && fresh(bars.entries)
      ensures status == "" && !statusShown && !buttonDisabled && !resultsShown
    {
      status := "";
      statusShown := false;
      buttonDisabled := false;
      resultsShown := false;
      bars := new SentimentTable();
    }

    /** `showLoading` */
    method ShowLoading()
      modifies this
      ensures status == "Analyzing..." && statusShown && buttonDisabled
      ensures resultsShown == old(resultsShown)
    {
      status := "Analyzing...";
      statusShown := true;
      buttonDisabled := true;
    }

    /** `hideLoading` */
    method HideLoading()
      modifies this
      ensures status == "" && !statusShown && !buttonDisabled
      ensures resultsShown == old(resultsShown)
    {
      status := "";
      statusShown := false;
      buttonDisabled := false;
    }

    /** `showInitial`, run when the popup opens: the initial view, no status,
        the button enabled and every bar at `0%`. */
    method ShowInitial()
      requires Valid()
      modifies this, bars.entries
      ensures Valid()
      ensures !resultsShown && status == "" && !statusShown && !buttonDisabled
      ensures forall j :: 0 <= j < bars.entries.Length ==>
                bars.entries[j] == Showing(old(bars.entries[j]), "0%")
    {
      resultsShown := false;
      HideLoading();
      bars.ResetBars();
    }

    /** The click handler of the start button up to the backend request: the
        bars are reset and the loading state shown; an address that names
        neither YouTube host, or from which no id is extracted, is refused with
        a message and the button enabled again; otherwise the answer is the
        address of the dashboard request for the extracted id. */
    method StartAnalysis(url: string) returns (request: Option<string>)
      requires Valid()
      modifies this, bars.entries
      ensures Valid()
      ensures forall j :: 0 <= j < bars.entries.Length ==>
                bars.entries[j] == Showing(old(bars.entries[j]), "0%")
      ensures resultsShown == old(resultsShown) && statusShown
      ensures !VideoId.HostGuard(url) ==>
                request.None? && status == "Please open a YouTube video." && !buttonDisabled
      ensures VideoId.HostGuard(url) && VideoId.GetVideoId(url).None? ==>
                request.None? && status == "Invalid YouTube URL or missing video ID." && !buttonDisabled
      ensures VideoId.GetVideoId(url).Some? ==>
                request == Some(BackendUrl + "/dashboard/" + VideoId.GetVideoId(url).value)
                && status == "Analyzing..." && buttonDisabled
    {
      bars.ResetBars();
      ShowLoading();
      if !VideoId.HostGuard(url) {
        if VideoId.GetVideoId(url).Some? {
          VideoId.ExtractedPassesGuard(url);
        }
        status := "Please open a YouTube video.";
        buttonDisabled := false;
        return None;
      }
      var id := VideoId.GetVideoId(url);
      if id.None? {
        status := "Invalid YouTube URL or missing video ID.";
        buttonDisabled := false;
        return None;
      }
      request := Some(BackendUrl + "/dashboard/" + id.value);
    }
  }
}
