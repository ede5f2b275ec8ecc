/** `src/app/api/testimonials/route.ts`: the testimonial list (public
    callers see approved testimonials only) and testimonial creation. */
module Testimonials {
  import opened Common
  import opened Seqs
  import opened Http
  import opened Store
  import opened Listing
  import opened Validations

  datatype Testimonial = Testimonial(
    quote: string, quoteAr: Option<string>, authorName: string, authorRole: Option<string>,
    authorRoleAr: Option<string>, authorCompany: Option<string>, authorImage: Option<string>,
    rating: int, featured: bool, approved: bool, displayOrder: int)

  // ---------------------------------------------------------------------
  // GET

  /** The `where` object: `approved: true` unless `admin=true`, and
      `featured: true` when `featured=true`, for every caller. */
  predicate Shown(q: Params, t: Testimonial) {
    (ParamIs(q, "admin", "true") || t.approved) &&
    (!ParamIs(q, "featured", "true") || t.featured)
  }

  function ShownBy(q: Params): Testimonial -> bool {
    t => Shown(q, t)
  }

  /** `orderBy: [{ featured: 'desc' }, { displayOrder: 'asc' }, { createdAt: 'desc' }]` */
  function Order(r: Row<Testimonial>): Key {
    Key(if r.data.featured then 0 else 1, r.data.displayOrder, -(r.createdAt as int))
  }

  /** GET /api/testimonials: all shown testimonials, in order, unpaginated. */
  function List(rows: seq<Row<Testimonial>>, q: Params): (r: seq<Row<Testimonial>>)
    ensures |r| == CountWhere(rows, ShownBy(q))
    ensures forall i :: 0 <= i < |r| ==> r[i] in rows && Shown(q, r[i].data)
    ensures forall i :: 0 <= i < |rows| && Shown(q, rows[i].data) ==> rows[i] in r
    ensures forall i, j :: 0 <= i < j < |r| ==> KeyLe(Order(r[i]), Order(r[j]))
    ensures !ParamIs(q, "admin", "true") ==> forall i :: 0 <= i < |r| ==> r[i].data.approved
    ensures ParamIs(q, "featured", "true") ==> forall i :: 0 <= i < |r| ==> r[i].data.featured
  {
    FindMany(rows, ShownBy(q), Order)
  }

  // ---------------------------------------------------------------------
  // POST

  /** The `data` of `prisma.testimonial.create`: `rating || 5`,
      `featured || false`, `approved || false`, `displayOrder || 0`. */
  function NewTestimonial(v: TestimonialInput): (t: Testimonial)
    ensures t.approved <==> v.approved == Some(true)
    ensures t.featured <==> v.featured == Some(true)
    ensures v.rating.None? ==> t.rating == 5
    ensures v.rating.Some? && v.rating.value != 0 ==> t.rating == v.rating.value
    ensures t.displayOrder == (if v.displayOrder.Some? then v.displayOrder.value else 0)
    ensures t.quote == v.quote && t.authorName == v.authorName
  {
    Testimonial(
      v.quote, v.quoteAr, v.authorName, v.authorRole, v.authorRoleAr, v.authorCompany,
      v.authorImage, if v.rating.Some? && v.rating.value != 0 then v.rating.value else 5,
      OrFalse(v.featured), OrFalse(v.approved), OrZero(v.displayOrder))
  }

  /** Every testimonial created from an accepted body has a rating in 1..5. */
  lemma CreatedRatingInRange(f: Formats, b: Body)
    requires Accepts(f, TestimonialSchema, b)
    ensures 1 <= NewTestimonial(TestimonialOf(b)).rating <= 5
  {
    TestimonialRating(f, b);
  }

  /** POST /api/testimonials: a body the schema refuses is a 400, any other
      failure (here: a body that is not JSON) a 500. */
  method Create(t: Table<Testimonial>, f: Formats, body: Option<Body>, now: nat) returns (r: Reply<Row<Testimonial>>)
    requires t.Valid()
    modifies t
    ensures t.Valid()
    ensures body.None? ==> r == Fail(SERVER_ERROR, "create failed") && t.rows == old(t.rows)
    ensures body.Some? && !Accepts(f, TestimonialSchema, body.value) ==>
      r == Fail(BAD_REQUEST, "invalid data") && t.rows == old(t.rows)
    ensures body.Some? && Accepts(f, TestimonialSchema, body.value) ==>
      r.Ok? && r.status == CREATED && r.data.createdAt == now &&
      r.data.data == NewTestimonial(TestimonialOf(body.value)) && t.rows == old(t.rows) + [r.data]
  {
    if body.None? {
      return Fail(SERVER_ERROR, "create failed");
    }
    if !Accepts(f, TestimonialSchema, body.value) {
      return Fail(BAD_REQUEST, "invalid data");
    }
    var data := NewTestimonial(TestimonialOf(body.value));
    var id := t.Insert(data, now);
    r := Ok(CREATED, Row(id, now, data));
  }

  /** A newly created testimonial reaches the public list exactly when it
      was created approved. */
  lemma PublicOnlyWhenApproved(rows: seq<Row<Testimonial>>, q: Params, v: TestimonialInput, id: nat, now: nat)
    requires !ParamIs(q, "admin", "true") && !ParamIs(q, "featured", "true")
    ensures Row(id, now, NewTestimonial(v)) in List(rows + [Row(id, now, NewTestimonial(v))], q) <==> v.approved == Some(true)
  {
    var row := Row(id, now, NewTestimonial(v));
    var rows' := rows + [row];
    assert rows'[|rows|] == row;
  }
}
