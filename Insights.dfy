/** The analysis helpers of the backend besides the comment sanitiser: the
    sentiment-chart data, the post-processing of a classifier reply, and the
    insight request (prompt text, reply unwrapping and reshaping). */
module Insights {
  import opened Results
  import opened Text
  import opened Json
  import opened Frame

  // ---------------------------------------------------------------------
  // Pie chart data of `generateGraphs`
  // ---------------------------------------------------------------------

  /** The slices handed to the pie chart, parallel lists as in the source. */
  datatype PieChart = PieChart(labels: seq<string>, sizes: seq<nat>,
                               colors: seq<string>, explode: seq<real>)

  const SentimentOrder: seq<string> := ["positive", "neutral", "negative"]

  const ColorMap: map<string, string> :=
    map["positive" := "gold", "neutral" := "lightskyblue", "negative" := "lightcoral"]

  /** Position of a label in the chart's fixed order. */
  function Rank(s: string): nat {
    if s == "positive" then 0 else if s == "neutral" then 1 else if s == "negative" then 2 else 3
  }

  /** The labels of the fixed order that occur in the sentiment column, in
      that order. */
  function PieLabels(column: seq<string>): (labels: seq<string>)
    ensures forall l :: l in labels <==> l in SentimentOrder && l in column
    ensures forall i, j :: 0 <= i < j < |labels| ==> Rank(labels[i]) < Rank(labels[j])
  {
    (if "positive" in column then ["positive"] else [])
    + (if "neutral" in column then ["neutral"] else [])
    + (if "negative" in column then ["negative"] else [])
  }

  /** The pie chart for a classified table: one slice per label present, its
      size the number of rows with that label, its colour from the colour map,
      and only the positive slice pulled out. */
  function Pie(rows: seq<Row>): (p: PieChart)
    ensures |p.sizes| == |p.labels| && |p.colors| == |p.labels| && |p.explode| == |p.labels|
    ensures forall l :: l in p.labels <==> l in SentimentOrder && l in Sentiments(rows)
    ensures forall i, j :: 0 <= i < j < |p.labels| ==> Rank(p.labels[i]) < Rank(p.labels[j])
    ensures forall i :: 0 <= i < |p.labels| ==>
              p.sizes[i] == Count(Sentiments(rows), p.labels[i]) && p.sizes[i] > 0
    ensures forall i :: 0 <= i < |p.labels| ==> p.labels[i] in ColorMap && p.colors[i] == ColorMap[p.labels[i]]
    ensures forall i :: 0 <= i < |p.labels| ==>
              p.explode[i] == (if p.labels[i] == "positive" then 0.1 else 0.0)
  {
    var column := Sentiments(rows);
    var labels := PieLabels(column);
    PresentCountsPositive(column, labels);
    OrderColoured();
    PieChart(labels, Sizes(column, labels), Colors(labels), Explode(labels))
  }

  /** Every label of the fixed order has a colour. */
  lemma OrderColoured()
    ensures forall l :: l in SentimentOrder ==> l in ColorMap
  {
  }

  /** `[color_map[s] for s in labels]` */
  function Colors(labels: seq<string>): (colors: seq<string>)
    requires forall l :: l in labels ==> l in ColorMap
    ensures |colors| == |labels|
    ensures forall i :: 0 <= i < |labels| ==> labels[i] in ColorMap && colors[i] == ColorMap[labels[i]]
  {
    seq(|labels|, i requires 0 <= i < |labels| => ColorMap[labels[i]])
  }

  /** `[0.1 if s == "positive" else 0 for s in labels]` */
  function Explode(labels: seq<string>): (explode: seq<real>)
    ensures |explode| == |labels|
    ensures forall i :: 0 <= i < |labels| ==> explode[i] == (if labels[i] == "positive" then 0.1 else 0.0)
  {
    seq(|labels|, i requires 0 <= i < |labels| => if labels[i] == "positive" then 0.1 else 0.0)
  }

  lemma PresentCountsPositive(column: seq<string>, labels: seq<string>)
    requires forall l :: l in labels ==> l in column
    ensures forall i :: 0 <= i < |labels| ==> Count(column, labels[i]) > 0
  {
    forall i | 0 <= i < |labels| ensures Count(column, labels[i]) > 0 {
      CountZeroIffAbsent(column, labels[i]);
    }
  }

  /** `value_counts().get(s, 0)` for each label of a list. */
  function Sizes(column: seq<string>, labels: seq<string>): (sizes: seq<nat>)
    ensures |sizes| == |labels|
    ensures forall i :: 0 <= i < |labels| ==> sizes[i] == Count(column, labels[i])
    decreases |labels|
  {
    if labels == [] then [] else [CountOf(column, labels[0])] + Sizes(column, labels[1..])
  }

  lemma {:induction false} SizesConcat(column: seq<string>, xs: seq<string>, ys: seq<string>)
    ensures Sizes(column, xs + ys) == Sizes(column, xs) + Sizes(column, ys)
    decreases |xs|
  {
    if xs != [] {
      assert (xs + ys)[0] == xs[0];
      assert (xs + ys)[1..] == xs[1..] + ys;
      SizesConcat(column, xs[1..], ys);
    }
  }

  function SumOf(xs: seq<nat>): nat
    decreases |xs|
  {
    if xs == [] then 0 else xs[0] + SumOf(xs[1..])
  }

  lemma {:induction false} SumOfConcat(xs: seq<nat>, ys: seq<nat>)
    ensures SumOf(xs + ys) == SumOf(xs) + SumOf(ys)
    decreases |xs|
  {
    if xs != [] {
      assert (xs + ys)[0] == xs[0];
      assert (xs + ys)[1..] == xs[1..] + ys;
      SumOfConcat(xs[1..], ys);
    } else {
      assert xs + ys == ys;
    }
  }

  /** The slice of one label, where an absent label contributes nothing. */
  lemma SliceOfOne(column: seq<string>, l: string)
    ensures SumOf(Sizes(column, if l in column then [l] else [])) == Count(column, l)
  {
    CountZeroIffAbsent(column, l);
    if l in column {
      assert Sizes(column, [l]) == [Count(column, l)] + Sizes(column, []);
    }
  }

  /** The slice sizes add up to the rows carrying one of the three labels; so
      to the whole table when the classifier only answers those labels. */
  lemma PieSizesSum(rows: seq<Row>)
    ensures SumOf(Pie(rows).sizes) == Count(Sentiments(rows), "positive")
              + Count(Sentiments(rows), "neutral") + Count(Sentiments(rows), "negative")
  {
    var column := Sentiments(rows);
    var a := if "positive" in column then ["positive"] else [];
    var b := if "neutral" in column then ["neutral"] else [];
    var c := if "negative" in column then ["negative"] else [];
    assert PieLabels(column) == a + b + c;
    SizesConcat(column, a + b, c);
    SizesConcat(column, a, b);
    SumOfConcat(Sizes(column, a) + Sizes(column, b), Sizes(column, c));
    SumOfConcat(Sizes(column, a), Sizes(column, b));
    SliceOfOne(column, "positive");
    SliceOfOne(column, "neutral");
    SliceOfOne(column, "negative");
  }

  lemma PieSizesCoverRows(rows: seq<Row>)
    requires forall i :: 0 <= i < |rows| ==> rows[i].sentiment in SentimentOrder
    ensures SumOf(Pie(rows).sizes) == |rows|
  {
    PieSizesSum(rows);
    ThreeCountsCover(Sentiments(rows));
  }

  /** Every label is one of the three, so the three counts add up to the
      number of labels. */
  lemma {:induction false} ThreeCountsCover(column: seq<string>)
    requires forall i :: 0 <= i < |column| ==> column[i] in SentimentOrder
    ensures Count(column, "positive") + Count(column, "neutral") + Count(column, "negative") == |column|
    decreases |column|
  {
    if column != [] {
      ThreeCountsCover(column[1..]);
    }
  }

  /** Labels other than the three are counted nowhere, so the three counts
      add up to at most the number of labels. */
  lemma {:induction false} ThreeCountsAtMost(column: seq<string>)
    ensures Count(column, "positive") + Count(column, "neutral") + Count(column, "negative") <= |column|
    decreases |column|
  {
    if column != [] {
      ThreeCountsAtMost(column[1..]);
    }
  }

  /** `generateGraphs` up to the drawing: an empty table is refused with the
      source's message, any other table gets its pie chart. */
  function GenerateGraphs(rows: seq<Row>): (r: Result<PieChart>)
    ensures r.Err? <==> rows == []
    ensures r.Err? ==> r.error == "Data is empty, cannot generate graphs."
    ensures r.Ok? ==> r.value == Pie(rows)
  {
    if rows == [] then Err("Data is empty, cannot generate graphs.")
    else Ok(Pie(rows))
  }

  // ---------------------------------------------------------------------
  // `predict_sentiment`
  // ---------------------------------------------------------------------

  /** The label of a classifier reply: the first label in lower case, or
      "neutral" when the reply lists none; a failing classifier call becomes
      an error carrying its message behind a fixed prefix. */
  function PredictSentiment(reply: Result<seq<string>>): (r: Result<string>)
    ensures r.Ok? <==> reply.Ok?
    ensures reply.Err? ==> r.error == "Error predicting sentiment: " + reply.error
    ensures reply.Ok? && reply.value == [] ==> r.value == "neutral"
    ensures reply.Ok? && reply.value != [] ==>
              |r.value| == |reply.value[0]|
              && (forall i :: 0 <= i < |r.value| ==> !('A' <= r.value[i] <= 'Z'))
              && (forall i :: 0 <= i < |r.value| && !('A' <= reply.value[0][i] <= 'Z') ==>
                    r.value[i] == reply.value[0][i])
              && (forall i :: 0 <= i < |r.value| && 'A' <= reply.value[0][i] <= 'Z' ==>
                    r.value[i] == (reply.value[0][i] as int + 32) as char)
  {
    match reply
    case Err(e) => Err("Error predicting sentiment: " + e)
    case Ok(labels) => if |labels| > 0 then Ok(LowerAscii(labels[0])) else Ok("neutral")
  }

  /** A classifier that already answers in lower case is passed through. */
  lemma PredictSentimentLowerCase(labels: seq<string>)
    requires labels != []
    requires forall i :: 0 <= i < |labels[0]| ==> !('A' <= labels[0][i] <= 'Z')
    ensures PredictSentiment(Ok(labels)) == Ok(labels[0])
  {
    var r := PredictSentiment(Ok(labels)).value;
    assert r == labels[0];
  }

  // ---------------------------------------------------------------------
  // `generateInsights`
  // ---------------------------------------------------------------------

  const MaxLength: nat := 8000

  /** The comment text is cut to its first `MaxLength` characters followed by
      an ellipsis once it is longer than that. */
  function Truncate(text: string): (r: string)
    ensures |r| <= MaxLength + 3
    ensures |text| <= MaxLength ==> r == text
    ensures |text| > MaxLength ==> |r| == MaxLength + 3 && r[..MaxLength] == text[..MaxLength]
                                   && r[MaxLength..] == "..."
  {
    if |text| > MaxLength then text[..MaxLength] + "..." else text
  }

  function Comments(rows: seq<Row>): (cs: seq<string>)
    ensures |cs| == |rows|
    ensures forall i :: 0 <= i < |rows| ==> cs[i] == rows[i].comment
  {
    seq(|rows|, i requires 0 <= i < |rows| => rows[i].comment)
  }

  /** The comments as they are placed in the prompt: joined by single spaces
      and truncated. */
  function CommentsText(rows: seq<Row>): (t: string)
    ensures |t| <= MaxLength + 3
    ensures |JoinSpace(Comments(rows))| <= MaxLength ==> t == JoinSpace(Comments(rows))
    ensures |JoinSpace(Comments(rows))| > MaxLength ==> t == JoinSpace(Comments(rows))[..MaxLength] + "..."
  {
    Truncate(JoinSpace(Comments(rows)))
  }

  /** Truncating twice is truncating once. */
  lemma TruncateIdempotent(text: string)
    ensures Truncate(Truncate(text)) == Truncate(text)
  {
    if |text| > MaxLength {
      var once := Truncate(text);
      assert once[..MaxLength] == text[..MaxLength];
    }
  }

  /** Python `str.replace("```", "")`: every non-overlapping fence, scanned from
      the left, is deleted. */
  function RemoveFences(s: string): (r: string)
    ensures |r| <= |s|
    decreases |s|
  {
    if s == [] then []
    else if HasAt(s, 0, "```") then RemoveFences(s[3..])
    else [s[0]] + RemoveFences(s[1..])
  }

  lemma {:induction false} RemoveFencesKeepsPlainPrefix(u: string, v: string)
    requires '`' !in u
    ensures RemoveFences(u + v) == u + RemoveFences(v)
    decreases |u|
  {
    if u != [] {
      assert (u + v)[0] == u[0];
      assert !HasAt(u + v, 0, "```");
      assert (u + v)[1..] == u[1..] + v;
      RemoveFencesKeepsPlainPrefix(u[1..], v);
      calc {
        RemoveFences(u + v);
        [u[0]] + RemoveFences(u[1..] + v);
        [u[0]] + (u[1..] + RemoveFences(v));
        { assert u == [u[0]] + u[1..]; }
        u + RemoveFences(v);
      }
    } else {
      assert u + v == v;
    }
  }

  /** The text handed to the JSON parser: the reply without fences and without
      its first four characters (Python slicing: empty when shorter). */
  function ReplyBody(text: string): (body: string)
    ensures var f := RemoveFences(text); |body| == (if |f| >= 4 then |f| - 4 else 0)
  {
    var f := RemoveFences(text);
    if |f| >= 4 then f[4..] else []
  }

  /** A reply fenced as a Markdown "json" code block yields exactly the text
      inside the block. */
  lemma FencedReplyBody(t: string)
    requires '`' !in t
    ensures ReplyBody("```json" + t + "```") == t
  {
    var s := "```json" + t + "```";
    assert HasAt(s, 0, "```");
    assert s[3..] == "json" + (t + "```");
    RemoveFencesKeepsPlainPrefix("json" + t, "```");
    assert s[3..] == ("json" + t) + "```";
    var fence := "```";
    assert HasAt(fence, 0, "```");
    assert RemoveFences(fence) == RemoveFences(fence[3..]);
    assert RemoveFences(s) == "json" + t;
  }

  /** The detail reported when the parsed reply is not a JSON object. */
  const NotAnObject: string := "the reply is not a JSON object"

  /** The insight object returned to the dashboard: questions and suggestions
      when the reply has a "Question" member, engagement and suggestions
      otherwise; a missing member becomes an empty list. */
  function Reshape(parsed: Json): (r: Result<map<string, Json>>)
    ensures r.Ok? <==> parsed.Object?
    ensures r.Err? ==> r.error == "Error generating insights: " + NotAnObject
    ensures parsed.Object? && "Question" in parsed.fields ==>
              r.value.Keys == {"Questions", "Suggestions"}
              && r.value["Questions"] == parsed.fields["Question"]
              && r.value["Suggestions"] == GetOrEmpty(parsed.fields, "Suggestion")
    ensures parsed.Object? && "Question" !in parsed.fields ==>
              r.value.Keys == {"Engagement", "Suggestions"}
              && r.value["Engagement"] == GetOrEmpty(parsed.fields, "Engagement")
              && r.value["Suggestions"] == GetOrEmpty(parsed.fields, "Suggestion")
  {
    match parsed
    case Object(fields) =>
      if "Question" in fields then
        Ok(map["Questions" := GetOrEmpty(fields, "Question"),
               "Suggestions" := GetOrEmpty(fields, "Suggestion")])
      else
        Ok(map["Engagement" := GetOrEmpty(fields, "Engagement"),
               "Suggestions" := GetOrEmpty(fields, "Suggestion")])
    case _ => Err("Error generating insights: " + NotAnObject)
  }

  /** `generateInsights`. `generate` is the language model, called with the
      comment text of the prompt; its failure propagates unchanged. `loads` is
      the JSON parser; its failure, like a non-object reply, is reported behind
      the fixed prefix. */
  function GenerateInsights(rows: seq<Row>, generate: string -> Result<string>,
                            loads: string -> Result<Json>): (r: Result<map<string, Json>>)
    ensures rows == [] ==> r == Err("No comments Found, cannot generate insights.")
    ensures rows != [] && generate(CommentsText(rows)).Err? ==> r == Err(generate(CommentsText(rows)).error)
    ensures rows != [] && generate(CommentsText(rows)).Ok? ==>
              var parsed := loads(ReplyBody(generate(CommentsText(rows)).value));
              (parsed.Err? ==> r == Err("Error generating insights: " + parsed.error))
              && (parsed.Ok? ==> r == Reshape(parsed.value))
    ensures r.Ok? ==> r.value.Keys == {"Questions", "Suggestions"} || r.value.Keys == {"Engagement", "Suggestions"}
  {
    if rows == [] then Err("No comments Found, cannot generate insights.")
    else
      match generate(CommentsText(rows))
      case Err(e) => Err(e)
      case Ok(text) =>
        match loads(ReplyBody(text))
        case Err(e) => Err("Error generating insights: " + e)
        case Ok(parsed) => Reshape(parsed)
  }
}
