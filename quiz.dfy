/** `src/app/api/quiz/route.ts`: the quiz analytics read and the result
    submission. */
module Quiz {
  import opened Common
  import opened Seqs
  import opened JsonArray
  import opened Http
  import opened Store
  import opened Listing
  import opened Validations

  /** A row of the quiz-result table; `answers` holds JSON array text. */
  datatype QuizResult = QuizResult(
    quizType: string, score: int, answers: Option<string>, result: Option<string>,
    userEmail: Option<string>, ipAddress: string, userAgent: string)

  /** How many results the read returns at most (`take: 100`). */
  const MAX_RESULTS: nat := 100

  // ---------------------------------------------------------------------
  // GET

  /** `where = quizType ? { quizType } : {}`, from the `type` parameter. */
  predicate Selected(q: Params, r: QuizResult) {
    !Truthy(Param(q, "type")) || r.quizType == Param(q, "type").value
  }

  function SelectedBy(q: Params): QuizResult -> bool {
    r => Selected(q, r)
  }

  /** `orderBy: { createdAt: 'desc' }` */
  function Order(r: Row<QuizResult>): Key {
    Key(-(r.createdAt as int), 0, 0)
  }

  /** The scores of a list of results, in order. */
  function Scores(rows: seq<Row<QuizResult>>): (r: seq<int>)
    ensures |r| == |rows|
    ensures forall i :: 0 <= i < |rows| ==> r[i] == rows[i].data.score
  {
    if rows == [] then [] else [rows[0].data.score] + Scores(rows[1..])
  }

  function Sum(xs: seq<int>): int {
    if xs == [] then 0 else xs[0] + Sum(xs[1..])
  }

  /** `aggregate({ _avg: { score: true } })._avg.score || 0`, in exact
      arithmetic: the mean, and 0 for no scores (where the aggregate is null). */
  function Mean(xs: seq<int>): (m: real)
    ensures xs == [] ==> m == 0.0
  {
    if xs == [] then 0.0 else Sum(xs) as real / |xs| as real
  }

  lemma {:induction false} SumBounds(xs: seq<int>, lo: int, hi: int)
    requires forall i :: 0 <= i < |xs| ==> lo <= xs[i] <= hi
    ensures lo * |xs| <= Sum(xs) <= hi * |xs|
  {
    if xs != [] {
      SumBounds(xs[1..], lo, hi);
    }
  }

  /** The mean of scores that all lie in [lo, hi] lies in [lo, hi]. */
  lemma MeanBounds(xs: seq<int>, lo: int, hi: int)
    requires xs != []
    requires forall i :: 0 <= i < |xs| ==> lo <= xs[i] <= hi
    ensures lo as real <= Mean(xs) <= hi as real
  {
    SumBounds(xs, lo, hi);
    var n := |xs| as real;
    var s := Sum(xs) as real;
    assert lo as real * n <= s <= hi as real * n;
    DivideBounds(s, n, lo as real, hi as real);
  }

  lemma DivideBounds(s: real, n: real, lo: real, hi: real)
    requires n > 0.0 && lo * n <= s <= hi * n
    ensures lo <= s / n <= hi
  {
    var m := s / n;
    assert m * n == s;
  }

  datatype ResultView = ResultView(row: Row<QuizResult>, answers: seq<string>)

  /** The `results.map(...)` that parses `answers`. */
  function Views(rows: seq<Row<QuizResult>>): (r: Option<seq<ResultView>>)
    ensures r.Some? ==> |r.value| == |rows|
    ensures r.Some? ==> forall i :: 0 <= i < |rows| ==>
      r.value[i].row == rows[i] && DecodeColumn(rows[i].data.answers) == Some(r.value[i].answers)
    ensures r.None? <==> exists i :: 0 <= i < |rows| && DecodeColumn(rows[i].data.answers).None?
  {
    if rows == [] then Some([])
    else
      var a := DecodeColumn(rows[0].data.answers);
      var rest := Views(rows[1..]);
      assert forall i :: 1 <= i < |rows| ==> rows[i] == rows[1..][i - 1];
      if a.None? || rest.None? then None
      else Some([ResultView(rows[0], a.value)] + rest.value)
  }

  datatype Analytics = Analytics(totalAttempts: nat, averageScore: real)

  datatype QuizReport = QuizReport(results: seq<ResultView>, analytics: Analytics)

  /** The rows the read fetches: `take: 100` of the matching results,
      newest first. */
  function Newest(rows: seq<Row<QuizResult>>, q: Params): seq<Row<QuizResult>> {
    Take(FindMany(rows, SelectedBy(q), Order), MAX_RESULTS)
  }

  /** GET /api/quiz: the newest 100 matching results with their answers
      parsed, and analytics over every matching result. It fails exactly
      when the answers of a fetched result cannot be read. */
  function Report(rows: seq<Row<QuizResult>>, q: Params): (r: Reply<QuizReport>)
    ensures r.Fail? ==> r.status == SERVER_ERROR
    ensures r.Ok? <==> Views(Newest(rows, q)).Some?
    ensures r.Ok? ==> r.data.results == Views(Newest(rows, q)).value
    ensures r.Ok? ==> r.status == OK && r.data.analytics.totalAttempts == CountWhere(rows, SelectedBy(q))
    ensures r.Ok? ==> r.data.analytics.averageScore == Mean(Scores(Filter(rows, OnData(SelectedBy(q)))))
  {
    var matching := FindMany(rows, SelectedBy(q), Order);
    var newest := Newest(rows, q);
    var avg := Mean(Scores(Filter(rows, OnData(SelectedBy(q)))));
    match Views(newest)
    case None => Fail(SERVER_ERROR, "fetch failed")
    case Some(views) =>
      Ok(OK, QuizReport(views, Analytics(|matching|, avg)))
  }

  /** A successful read returns at most the 100 newest matching results
      (all of them when there are fewer, exactly 100 when there are more),
      newest first and with their answers parsed; the average over no
      results is 0. */
  lemma ReportResults(rows: seq<Row<QuizResult>>, q: Params)
    requires Report(rows, q).Ok?
    ensures var res := Report(rows, q).data.results;
      |res| <= MAX_RESULTS &&
      (CountWhere(rows, SelectedBy(q)) <= MAX_RESULTS ==> |res| == CountWhere(rows, SelectedBy(q))) &&
      (CountWhere(rows, SelectedBy(q)) >= MAX_RESULTS ==> |res| == MAX_RESULTS)
    ensures CountWhere(rows, SelectedBy(q)) == 0 ==> Report(rows, q).data.analytics.averageScore == 0.0
    ensures var res := Report(rows, q).data.results;
      forall i :: 0 <= i < |res| ==>
        res[i].row in rows && Selected(q, res[i].row.data) &&
        DecodeColumn(res[i].row.data.answers) == Some(res[i].answers)
    ensures var res := Report(rows, q).data.results;
      forall i, j :: 0 <= i < j < |res| ==> res[i].row.createdAt >= res[j].row.createdAt
  {
    var views := Views(Newest(rows, q)).value;
    NewestViews(rows, q, views);
  }

  /** The parsed rows of `Newest`, stated without `Report`. */
  lemma NewestViews(rows: seq<Row<QuizResult>>, q: Params, views: seq<ResultView>)
    requires Views(Newest(rows, q)) == Some(views)
    ensures |views| <= MAX_RESULTS
    ensures CountWhere(rows, SelectedBy(q)) <= MAX_RESULTS ==> |views| == CountWhere(rows, SelectedBy(q))
    ensures CountWhere(rows, SelectedBy(q)) >= MAX_RESULTS ==> |views| == MAX_RESULTS
    ensures forall i :: 0 <= i < |views| ==>
      views[i].row in rows && Selected(q, views[i].row.data) &&
      DecodeColumn(views[i].row.data.answers) == Some(views[i].answers)
    ensures forall i, j :: 0 <= i < j < |views| ==> views[i].row.createdAt >= views[j].row.createdAt
  {
    var newest := Newest(rows, q);
    NewestResults(rows, q, newest);
    assert forall i :: 0 <= i < |views| ==> views[i].row == newest[i];
  }

  /** The results returned are the newest: no matching result left out is
      newer than one returned. */
  lemma ReportNewest(rows: seq<Row<QuizResult>>, q: Params)
    requires Report(rows, q).Ok?
    ensures var res := Report(rows, q).data.results;
      forall k, i ::
        0 <= k < |rows| && Selected(q, rows[k].data) && 0 <= i < |res| && rows[k].createdAt > res[i].row.createdAt ==>
        exists j :: 0 <= j < |res| && res[j].row == rows[k]
  {
    var newest := Take(FindMany(rows, SelectedBy(q), Order), MAX_RESULTS);
    NewestKept(rows, q, newest);
    var views := Views(newest).value;
    assert Report(rows, q).data.results == views;
    forall k, i | 0 <= k < |rows| && Selected(q, rows[k].data) && 0 <= i < |views| &&
      rows[k].createdAt > views[i].row.createdAt
      ensures exists j :: 0 <= j < |views| && views[j].row == rows[k]
    {
      assert views[i].row == newest[i];
      var j :| 0 <= j < |newest| && newest[j] == rows[k];
      assert views[j].row == rows[k];
    }
  }

  /** The results the read returns, stated without the closures: at most
      `MAX_RESULTS` matching rows, newest first. */
  lemma NewestResults(rows: seq<Row<QuizResult>>, q: Params, newest: seq<Row<QuizResult>>)
    requires newest == Take(FindMany(rows, SelectedBy(q), Order), MAX_RESULTS)
    ensures |newest| <= MAX_RESULTS
    ensures CountWhere(rows, SelectedBy(q)) <= MAX_RESULTS ==> |newest| == CountWhere(rows, SelectedBy(q))
    ensures CountWhere(rows, SelectedBy(q)) >= MAX_RESULTS ==> |newest| == MAX_RESULTS
    ensures forall i :: 0 <= i < |newest| ==> newest[i] in rows && Selected(q, newest[i].data)
    ensures forall i, j :: 0 <= i < j < |newest| ==> newest[i].createdAt >= newest[j].createdAt
  {
    var matching := FindMany(rows, SelectedBy(q), Order);
    SliceOfSorted(matching, 0, |newest|, Order);
    assert newest == matching[0..|newest|];
    forall i, j | 0 <= i < j < |newest|
      ensures newest[i].createdAt >= newest[j].createdAt
    {
      assert KeyLe(Order(newest[i]), Order(newest[j]));
    }
  }

  /** `take: 100` after `orderBy: { createdAt: 'desc' }` keeps every
      matching row newer than one it keeps. */
  lemma NewestKept(rows: seq<Row<QuizResult>>, q: Params, newest: seq<Row<QuizResult>>)
    requires newest == Take(FindMany(rows, SelectedBy(q), Order), MAX_RESULTS)
    ensures forall k, i ::
      0 <= k < |rows| && Selected(q, rows[k].data) && 0 <= i < |newest| && rows[k].createdAt > newest[i].createdAt ==>
      rows[k] in newest
  {
    var matching := FindMany(rows, SelectedBy(q), Order);
    forall i, j | 0 <= i < j < |matching|
      ensures matching[i].createdAt >= matching[j].createdAt
    {
      assert KeyLe(Order(matching[i]), Order(matching[j]));
    }
    assert newest == matching[..|newest|];
    TakeNewest(rows, SelectedBy(q), matching, newest);
  }

  /** The average reported for a type lies within the range of the scores
      stored for it. */
  lemma AverageWithinScores(rows: seq<Row<QuizResult>>, q: Params, lo: int, hi: int)
    requires forall i :: 0 <= i < |rows| ==> lo <= rows[i].data.score <= hi
    requires Report(rows, q).Ok? && CountWhere(rows, SelectedBy(q)) > 0
    ensures lo as real <= Report(rows, q).data.analytics.averageScore <= hi as real
  {
    var kept := Filter(rows, OnData(SelectedBy(q)));
    forall i | 0 <= i < |kept|
      ensures lo <= Scores(kept)[i] <= hi
    {
      FilterMember(rows, OnData(SelectedBy(q)), kept[i]);
    }
    MeanBounds(Scores(kept), lo, hi);
  }

  // ---------------------------------------------------------------------
  // POST

  /** The row the route writes: the answers as JSON text and the caller's
      address and agent. */
  function NewResult(v: QuizResultInput, h: Headers): (r: QuizResult)
    ensures DecodeColumn(r.answers) == Some(v.answers)
    ensures r.quizType == v.quizType && r.score == v.score && r.result == v.result && r.userEmail == v.userEmail
    ensures r.ipAddress == ClientIp(h) && r.userAgent == ClientAgent(h)
  {
    ColumnRoundTrip(Some(v.answers));
    QuizResult(v.quizType, v.score, EncodeColumn(Some(v.answers)), v.result, v.userEmail, ClientIp(h), ClientAgent(h))
  }

  /** POST /api/quiz: replies with the new id only; every failure, a
      refused body included, is a 500. */
  method Submit(t: Table<QuizResult>, f: Formats, body: Option<Body>, h: Headers, now: nat) returns (r: Reply<nat>)
    requires t.Valid()
    modifies t
    ensures t.Valid()
    ensures (body.None? || !Accepts(f, QuizResultSchema, body.value)) ==>
      r == Fail(SERVER_ERROR, "save failed") && t.rows == old(t.rows)
    ensures body.Some? && Accepts(f, QuizResultSchema, body.value) ==>
      r.Ok? && r.status == CREATED &&
      t.rows == old(t.rows) + [Row(r.data, now, NewResult(QuizResultOf(body.value), h))]
  {
    if body.None? || !Accepts(f, QuizResultSchema, body.value) {
      return Fail(SERVER_ERROR, "save failed");
    }
    var id := t.Insert(NewResult(QuizResultOf(body.value), h), now);
    r := Ok(CREATED, id);
  }
}
