/** The table of comments the backend builds with pandas (one row per comment:
    its like count, its text and, once classified, its sentiment label) and the
    pandas operations the backend applies to it. */
module Frame {
  import opened Results

  datatype Row = Row(likecount: int, comment: string, sentiment: string)

  /** The `sentiment` column. */
  function Sentiments(rows: seq<Row>): (labels: seq<string>)
    ensures |labels| == |rows|
    ensures forall i :: 0 <= i < |rows| ==> labels[i] == rows[i].sentiment
  {
    seq(|rows|, i requires 0 <= i < |rows| => rows[i].sentiment)
  }

  /** How many entries of `labels` equal `k`. */
  function Count(labels: seq<string>, k: string): nat
    decreases |labels|
  {
    if labels == [] then 0 else (if labels[0] == k then 1 else 0) + Count(labels[1..], k)
  }

  /** One more label adds one to its own count and nothing to the others. */
  lemma {:induction false} CountAppend(labels: seq<string>, x: string, k: string)
    ensures Count(labels + [x], k) == Count(labels, k) + (if x == k then 1 else 0)
    decreases |labels|
  {
    if labels != [] {
      assert (labels + [x])[1..] == labels[1..] + [x];
      CountAppend(labels[1..], x, k);
    }
  }

  /** Counts add up over concatenated label lists. */
  lemma {:induction false} CountConcat(a: seq<string>, b: seq<string>, k: string)
    ensures Count(a + b, k) == Count(a, k) + Count(b, k)
    decreases |a|
  {
    if a != [] {
      assert (a + b)[0] == a[0];
      assert (a + b)[1..] == a[1..] + b;
      CountConcat(a[1..], b, k);
    } else {
      assert a + b == b;
    }
  }

  lemma {:induction false} CountZeroIffAbsent(labels: seq<string>, k: string)
    ensures Count(labels, k) == 0 <==> k !in labels
    decreases |labels|
  {
    if labels != [] {
      CountZeroIffAbsent(labels[1..], k);
      assert labels == [labels[0]] + labels[1..];
    }
  }

  /** `value_counts().to_dict()`: each label that occurs, mapped to the number
      of its occurrences. */
  function ValueCounts(labels: seq<string>): (m: map<string, nat>)
    ensures forall k :: k in m <==> k in labels
    ensures forall k :: k in m ==> m[k] == Count(labels, k)
    decreases |labels|
  {
    if labels == [] then map[]
    else
      var init, x := labels[..|labels| - 1], labels[|labels| - 1];
      var m := ValueCounts(init);
      assert labels == init + [x];
      assert forall k :: k in labels <==> k in init || k == x;
      forall k ensures Count(labels, k) == Count(init, k) + (if x == k then 1 else 0) {
        CountAppend(init, x, k);
      }
      forall k | k !in m ensures Count(init, k) == 0 {
        CountZeroIffAbsent(init, k);
      }
      m[x := (if x in m then m[x] else 0) + 1]
  }

  /** `value_counts().get(k, 0)`: the number of rows labelled `k`, for any `k`. */
  function CountOf(labels: seq<string>, k: string): (n: nat)
    ensures n == Count(labels, k)
  {
    var m := ValueCounts(labels);
    CountZeroIffAbsent(labels, k);
    if k in m then m[k] else 0
  }

  /** Index of the first row labelled `wanted` whose like count is the largest
      among the rows labelled `wanted`. */
  function MostLiked(rows: seq<Row>, wanted: string): (r: Option<nat>)
    ensures r.None? <==> forall j :: 0 <= j < |rows| ==> rows[j].sentiment != wanted
    ensures r.Some? ==> r.value < |rows| && rows[r.value].sentiment == wanted
    ensures r.Some? ==> forall j :: 0 <= j < |rows| && rows[j].sentiment == wanted
                          ==> rows[j].likecount <= rows[r.value].likecount
    ensures r.Some? ==> forall j :: 0 <= j < r.value && rows[j].sentiment == wanted
                          ==> rows[j].likecount < rows[r.value].likecount
    decreases |rows|
  {
    if rows == [] then None
    else
      var t := MostLiked(rows[1..], wanted);
      assert forall j :: 1 <= j < |rows| ==> rows[j] == rows[1..][j - 1];
      if rows[0].sentiment != wanted then
        (if t.Some? then Some(t.value + 1) else None)
      else if t.Some? && rows[1..][t.value].likecount > rows[0].likecount then Some(t.value + 1)
      else Some(0)
  }

  /** `rows[rows.sentiment == wanted].nlargest(1, 'likecount')` as a list of
      records: at most one row, the most liked one carrying `wanted`, the first
      of them when several tie. */
  function TopLiked(rows: seq<Row>, wanted: string): (r: seq<Row>)
    ensures |r| <= 1
    ensures r == [] <==> forall j :: 0 <= j < |rows| ==> rows[j].sentiment != wanted
    ensures |r| == 1 ==> r[0] in rows && r[0].sentiment == wanted
    ensures |r| == 1 ==> forall j :: 0 <= j < |rows| && rows[j].sentiment == wanted
                           ==> rows[j].likecount <= r[0].likecount
    ensures |r| == 1 ==> exists i :: 0 <= i < |rows| && rows[i] == r[0]
                           && forall j :: 0 <= j < i && rows[j].sentiment == wanted
                                ==> rows[j].likecount < r[0].likecount
  {
    match MostLiked(rows, wanted)
    case None => []
    case Some(i) => [rows[i]]
  }
}
