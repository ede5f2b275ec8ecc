/** `src/app/api/faq/route.ts`: the FAQ list and admin-only FAQ creation. */
module Faq {
  import opened Common
  import opened Seqs
  import opened Http
  import opened Store
  import opened Listing

  /** A row of the FAQ table; `categoryId` is kept as the text the query
      string compares it with. */
  datatype Question = Question(
    question: Option<string>, questionAr: Option<string>, answer: Option<string>,
    answerAr: Option<string>, categoryId: Option<string>, displayOrder: int, isActive: bool)

  /** The `where` object: active unless `active=false`, and the
      `categoryId` when one is given. */
  predicate Selected(q: Params, f: Question) {
    (ParamIs(q, "active", "false") || f.isActive) &&
    (!Truthy(Param(q, "categoryId")) || f.categoryId == Param(q, "categoryId"))
  }

  function SelectedBy(q: Params): Question -> bool {
    f => Selected(q, f)
  }

  /** `orderBy: { displayOrder: 'asc' }` */
  function Order(r: Row<Question>): Key {
    Key(r.data.displayOrder, 0, 0)
  }

  /** GET /api/faq */
  function List(rows: seq<Row<Question>>, q: Params): (r: seq<Row<Question>>)
    ensures |r| == CountWhere(rows, SelectedBy(q))
    ensures forall i :: 0 <= i < |r| ==> r[i] in rows && Selected(q, r[i].data)
    ensures forall i :: 0 <= i < |rows| && Selected(q, rows[i].data) ==> rows[i] in r
    ensures forall i, j :: 0 <= i < j < |r| ==> r[i].data.displayOrder <= r[j].data.displayOrder
  {
    FindMany(rows, SelectedBy(q), Order)
  }

  /** The request body's members; an absent member is `undefined`. */
  datatype QuestionPayload = QuestionPayload(
    question: Option<string>, questionAr: Option<string>, answer: Option<string>,
    answerAr: Option<string>, categoryId: Option<string>, displayOrder: Option<int>,
    isActive: Option<bool>)

  /** `displayOrder || 0`, `isActive ?? true`; the rest is copied. */
  function NewQuestion(p: QuestionPayload): (f: Question)
    ensures f.displayOrder == (if p.displayOrder.Some? then p.displayOrder.value else 0)
    ensures f.isActive == (p.isActive != Some(false))
    ensures f.question == p.question && f.answer == p.answer && f.categoryId == p.categoryId
  {
    Question(p.question, p.questionAr, p.answer, p.answerAr, p.categoryId,
             OrZero(p.displayOrder), p.isActive.GetOr(true))
  }

  /** POST /api/faq. A body that is not JSON is a 500. */
  method Create(t: Table<Question>, session: Option<Session>, body: Option<QuestionPayload>, now: nat)
    returns (r: Reply<Row<Question>>)
    requires t.Valid()
    modifies t
    ensures t.Valid()
    ensures !IsAdmin(session) ==> r == Fail(UNAUTHORIZED, "unauthorized") && t.rows == old(t.rows)
    ensures IsAdmin(session) && body.None? ==> r == Fail(SERVER_ERROR, "create failed") && t.rows == old(t.rows)
    ensures IsAdmin(session) && body.Some? ==>
      r.Ok? && r.status == CREATED && r.data.createdAt == now && r.data.data == NewQuestion(body.value) &&
      t.rows == old(t.rows) + [r.data]
  {
    if !IsAdmin(session) {
      return Fail(UNAUTHORIZED, "unauthorized");
    }
    if body.None? {
      return Fail(SERVER_ERROR, "create failed");
    }
    var f := NewQuestion(body.value);
    var id := t.Insert(f, now);
    r := Ok(CREATED, Row(id, now, f));
  }

  /** Asking for a category lists exactly the listed questions of that
      category: the category filter is a sub-list of the unfiltered one. */
  lemma CategoryNarrows(rows: seq<Row<Question>>, q: Params)
    requires Truthy(Param(q, "categoryId"))
    ensures forall i :: 0 <= i < |List(rows, q)| ==>
      List(rows, q)[i].data.categoryId == Param(q, "categoryId") &&
      List(rows, q)[i] in List(rows, q - {"categoryId"})
  {
    var q' := q - {"categoryId"};
    forall i | 0 <= i < |List(rows, q)|
      ensures List(rows, q)[i] in List(rows, q')
    {
      var x := List(rows, q)[i];
      var k :| 0 <= k < |rows| && rows[k] == x;
      assert Selected(q', rows[k].data);
    }
  }
}
