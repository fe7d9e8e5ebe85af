/** The two HTTP routes of the backend: `/analyze/<video_id>` answers the
    sentiment counts of a video's comments, `/dashboard/<video_id>` the full
    report. Bodies are kept as the structures `jsonify` serialises. The comment download, the classifier, the language model, the
    chart upload and the JSON parser are parameters. */
module Routes {
  import opened Results
  import opened Json
  import opened Frame
  import CommentCleaner
  import Insights

  /** A comment as the video platform returns it. */
  datatype RawComment = RawComment(likecount: int, text: string)

  /** The JSON bodies the routes answer: `{"error": ...}`, the three counts,
      or the dashboard report. */
  datatype Body =
    | Error(message: string)
    | Counts(counts: map<string, nat>)
    | Report(totalComments: nat, sentimentCounts: map<string, nat>, graphUrls: Json,
             topLikedComments: map<string, seq<Row>>, insight: map<string, Json>)

  /** The status code and body a route answers. */
  datatype Reply = Reply(status: int, body: Body)

  function ErrorReply(status: int, message: string): (r: Reply)
    ensures r.status == status && r.body.Error? && r.body.message == message
  {
    Reply(status, Error(message))
  }

  /** `fetch_comments` around the download: a failure is reported behind a
      fixed prefix. */
  function FetchComments(download: Result<seq<RawComment>>): (r: Result<seq<RawComment>>)
    ensures r.Ok? <==> download.Ok?
    ensures r.Ok? ==> r.value == download.value
    ensures r.Err? ==> r.error == "Error fetching comments: " + download.error
  {
    match download
    case Ok(cs) => Ok(cs)
    case Err(e) => Err("Error fetching comments: " + e)
  }

  /** The classification of one comment's sanitised text. */
  function Labelled(c: RawComment, classify: string -> Result<seq<string>>): Result<string> {
    Insights.PredictSentiment(classify(CommentCleaner.CleanComment(c.text)))
  }

  /** The two column assignments of both routes: every comment is sanitised,
      then the sanitised text is classified; a failing classification
      interrupts the whole table. */
  function Classify(raw: seq<RawComment>, classify: string -> Result<seq<string>>): (r: Result<seq<Row>>)
    ensures r.Ok? ==> |r.value| == |raw|
    ensures r.Ok? ==> forall i :: 0 <= i < |raw| ==>
              r.value[i].likecount == raw[i].likecount
              && r.value[i].comment == CommentCleaner.CleanComment(raw[i].text)
              && Labelled(raw[i], classify) == Ok(r.value[i].sentiment)
    ensures r.Err? <==> exists c :: c in raw && Labelled(c, classify).Err?
    decreases |raw|
  {
    if raw == [] then Ok([])
    else
      match Labelled(raw[0], classify)
      case Err(e) => Err(e)
      case Ok(sentiment) =>
        match Classify(raw[1..], classify)
        case Err(e) => Err(e)
        case Ok(rows) =>
          assert forall i :: 1 <= i < |raw| ==> raw[i] == raw[1..][i - 1];
          assert forall c :: c in raw ==> c == raw[0] || c in raw[1..];
          Ok([Row(raw[0].likecount, CommentCleaner.CleanComment(raw[0].text), sentiment)] + rows)
  }

  /** Comment `i` fails with `e`, and every comment before it is labelled. */
  predicate FirstFailureAt(raw: seq<RawComment>, classify: string -> Result<seq<string>>, i: nat, e: string) {
    i < |raw| && Labelled(raw[i], classify) == Err(e)
    && forall j :: 0 <= j < i ==> Labelled(raw[j], classify).Ok?
  }

  /** The error of a failed table is that of its first failing comment. */
  lemma {:induction false} ClassifyReportsFirstFailure(raw: seq<RawComment>,
                                                       classify: string -> Result<seq<string>>)
    requires Classify(raw, classify).Err?
    ensures exists i: nat :: FirstFailureAt(raw, classify, i, Classify(raw, classify).error)
    decreases |raw|
  {
    var e := Classify(raw, classify).error;
    if Labelled(raw[0], classify).Err? {
      assert FirstFailureAt(raw, classify, 0, e);
    } else {
      var tail := raw[1..];
      assert Classify(raw, classify) == Classify(tail, classify);
      ClassifyReportsFirstFailure(tail, classify);
      var i: nat :| FirstFailureAt(tail, classify, i, e);
      assert raw[i + 1] == tail[i];
      assert forall j :: 1 <= j < i + 1 ==> raw[j] == tail[j - 1];
      assert FirstFailureAt(raw, classify, i + 1, e);
    }
  }

  /** The keys of the answered counts and of the top-liked lists. */
  const CountedLabels: set<string> := {"positive", "negative", "neutral"}

  /** The counts answered by both routes: all three labels, with zero for a
      label no comment carries. */
  function SentimentCounts(rows: seq<Row>): (counts: map<string, nat>)
    ensures counts.Keys == CountedLabels
    ensures forall k :: k in counts ==> counts[k] == Count(Sentiments(rows), k)
  {
    var column := Sentiments(rows);
    map k | k in CountedLabels :: CountOf(column, k)
  }

  /** The three counts never exceed the number of rows together. */
  lemma SentimentCountsAtMostTotal(rows: seq<Row>)
    ensures var counts := SentimentCounts(rows);
            counts["positive"] + counts["negative"] + counts["neutral"] <= |rows|
  {
    Insights.ThreeCountsAtMost(Sentiments(rows));
  }

  /** `/analyze/<video_id>`. */
  function AnalyzeVideo(download: Result<seq<RawComment>>,
                        classify: string -> Result<seq<string>>): (r: Reply)
    ensures download.Err? ==> r == ErrorReply(500, "Error fetching comments: " + download.error)
    ensures download == Ok([]) ==> r == ErrorReply(404, "No comments found for this video.")
    ensures download.Ok? && download.value != [] ==>
              var rows := Classify(download.value, classify);
              (rows.Err? ==> r == ErrorReply(500, rows.error))
              && (rows.Ok? ==> r == Reply(200, Counts(SentimentCounts(rows.value))))
  {
    match FetchComments(download)
    case Err(e) => ErrorReply(500, e)
    case Ok(raw) =>
      if raw == [] then ErrorReply(404, "No comments found for this video.")
      else
        match Classify(raw, classify)
        case Err(e) => ErrorReply(500, e)
        case Ok(rows) => Reply(200, Counts(SentimentCounts(rows)))
  }

  /** The analyse route answers 200, 404 or 500, and 404 exactly for a video
      without comments. */
  lemma AnalyzeVideoStatus(download: Result<seq<RawComment>>, classify: string -> Result<seq<string>>)
    ensures AnalyzeVideo(download, classify).status in {200, 404, 500}
    ensures AnalyzeVideo(download, classify).status == 404 <==> download == Ok([])
    ensures AnalyzeVideo(download, classify).status == 200 <==>
              download.Ok? && download.value != [] && Classify(download.value, classify).Ok?
  {
  }

  /** When the classifier only answers the three labels, the counts of a
      successful analysis add up to the number of comments. */
  lemma {:induction false} AnalyzeVideoCountsCoverComments(download: Result<seq<RawComment>>,
                                                           classify: string -> Result<seq<string>>)
    requires forall t :: Insights.PredictSentiment(classify(t)).Ok? ==>
               Insights.PredictSentiment(classify(t)).value in Insights.SentimentOrder
    requires AnalyzeVideo(download, classify).status == 200
    ensures var counts := AnalyzeVideo(download, classify).body.counts;
            counts["positive"] + counts["negative"] + counts["neutral"] == |download.value|
  {
    var rows := Classify(download.value, classify).value;
    forall i | 0 <= i < |rows| ensures rows[i].sentiment in Insights.SentimentOrder {
      assert Labelled(download.value[i], classify) == Ok(rows[i].sentiment);
    }
    Insights.ThreeCountsCover(Sentiments(rows));
  }

  /** The most liked comment of each label. */
  function TopLikedComments(rows: seq<Row>): (r: map<string, seq<Row>>)
    ensures r.Keys == CountedLabels
    ensures forall k :: k in r ==> r[k] == TopLiked(rows, k)
  {
    map k | k in CountedLabels :: TopLiked(rows, k)
  }

  /** `/dashboard/<video_id>` as written. The chart call names `TOKEN`, which
      the module never imports, so evaluating its arguments raises a NameError
      on every request that gets past the classification. */
  function DashboardAsWritten(download: Result<seq<RawComment>>,
                              classify: string -> Result<seq<string>>): (r: Reply)
    ensures download.Err? ==> r == ErrorReply(500, "Error fetching comments: " + download.error)
    ensures download == Ok([]) ==> r == ErrorReply(404, "No comments found for this video.")
    ensures download.Ok? && download.value != [] ==>
              var rows := Classify(download.value, classify);
              (rows.Err? ==> r == ErrorReply(500, rows.error))
              && (rows.Ok? ==> r == ErrorReply(500, "name 'TOKEN' is not defined"))
  {
    match FetchComments(download)
    case Err(e) => ErrorReply(500, e)
    case Ok(raw) =>
      if raw == [] then ErrorReply(404, "No comments found for this video.")
      else
        match Classify(raw, classify)
        case Err(e) => ErrorReply(500, e)
        case Ok(rows) => ErrorReply(500, "name 'TOKEN' is not defined")
  }

  /** The dashboard as written never delivers a report. */
  lemma DashboardAsWrittenNeverSucceeds(download: Result<seq<RawComment>>,
                                        classify: string -> Result<seq<string>>)
    ensures DashboardAsWritten(download, classify).status != 200
  {
  }

  /** A concrete request that shows it: one comment, a classifier that
      answers "POSITIVE". */
  lemma DashboardAsWrittenFailsOnOneComment(download: Result<seq<RawComment>>,
                                            classify: string -> Result<seq<string>>)
    requires download == Ok([RawComment(3, "nice video")])
    requires forall t :: classify(t) == Ok(["POSITIVE"])
    ensures DashboardAsWritten(download, classify) == ErrorReply(500, "name 'TOKEN' is not defined")
  {
    assert Classify(download.value, classify).Ok?;
  }

  /** `/dashboard/<video_id>` with the chart call matching `generateGraphs`'
      own signature. `upload` renders and stores the charts and answers their
      URLs; `generate` and `loads` are those of `generateInsights`. */
  function Dashboard(download: Result<seq<RawComment>>,
                     classify: string -> Result<seq<string>>,
                     upload: Insights.PieChart -> Result<Json>,
                     generate: string -> Result<string>,
                     loads: string -> Result<Json>): (r: Reply)
    ensures download.Err? ==> r == ErrorReply(500, "Error fetching comments: " + download.error)
    ensures download == Ok([]) ==> r == ErrorReply(404, "No comments found for this video.")
    ensures r.status == 200 ==>
              download.Ok? && download.value != [] && Classify(download.value, classify).Ok?
              && var rows := Classify(download.value, classify).value;
                 upload(Insights.Pie(rows)).Ok? && Insights.GenerateInsights(rows, generate, loads).Ok?
                 && r.body == Report(|download.value|, SentimentCounts(rows),
                                     upload(Insights.Pie(rows)).value, TopLikedComments(rows),
                                     Insights.GenerateInsights(rows, generate, loads).value)
    ensures r.status != 200 ==> r.status in {404, 500} && r.body.Error?
    ensures download.Ok? && download.value != [] ==>
              var rows := Classify(download.value, classify);
              (rows.Err? ==> r == ErrorReply(500, rows.error))
              && (rows.Ok? && upload(Insights.Pie(rows.value)).Err? ==>
                    r == ErrorReply(500, upload(Insights.Pie(rows.value)).error))
              && (rows.Ok? && upload(Insights.Pie(rows.value)).Ok?
                  && Insights.GenerateInsights(rows.value, generate, loads).Err? ==>
                    r == ErrorReply(500, Insights.GenerateInsights(rows.value, generate, loads).error))
              && (rows.Ok? && upload(Insights.Pie(rows.value)).Ok?
                  && Insights.GenerateInsights(rows.value, generate, loads).Ok? ==>
                    r == Reply(200, Report(|download.value|, SentimentCounts(rows.value),
                                           upload(Insights.Pie(rows.value)).value,
                                           TopLikedComments(rows.value),
                                           Insights.GenerateInsights(rows.value, generate, loads).value)))
  {
    match FetchComments(download)
    case Err(e) => ErrorReply(500, e)
    case Ok(raw) =>
      if raw == [] then ErrorReply(404, "No comments found for this video.")
      else
        match Classify(raw, classify)
        case Err(e) => ErrorReply(500, e)
        case Ok(rows) =>
          // `generateGraphs` refuses only an empty table, and this one is not.
          var pie := Insights.GenerateGraphs(rows).value;
          match upload(pie)
          case Err(e) => ErrorReply(500, e)
          case Ok(urls) =>
            match Insights.GenerateInsights(rows, generate, loads)
            case Err(e) => ErrorReply(500, e)
            case Ok(insight) =>
              Reply(200, Report(|rows|, SentimentCounts(rows), urls, TopLikedComments(rows), insight))
  }

  /** A report delivered by the corrected dashboard carries the same counts as
      the analyse route answers for the same comments and classifier. */
  lemma DashboardAgreesWithAnalyze(download: Result<seq<RawComment>>,
                                   classify: string -> Result<seq<string>>,
                                   upload: Insights.PieChart -> Result<Json>,
                                   generate: string -> Result<string>,
                                   loads: string -> Result<Json>)
    requires Dashboard(download, classify, upload, generate, loads).status == 200
    ensures AnalyzeVideo(download, classify).status == 200
    ensures Dashboard(download, classify, upload, generate, loads).body.sentimentCounts
            == AnalyzeVideo(download, classify).body.counts
  {
  }

  /** Whenever the analyse route fails, the corrected dashboard fails with the
      same reply. */
  lemma DashboardFailsLikeAnalyze(download: Result<seq<RawComment>>,
                                  classify: string -> Result<seq<string>>,
                                  upload: Insights.PieChart -> Result<Json>,
                                  generate: string -> Result<string>,
                                  loads: string -> Result<Json>)
    requires AnalyzeVideo(download, classify).status != 200
    ensures Dashboard(download, classify, upload, generate, loads) == AnalyzeVideo(download, classify)
  {
  }
}
