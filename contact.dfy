/** `src/app/api/contact/route.ts`: the paginated message list and the
    contact-form submission. */
module Contact {
  import opened Common
  import opened Seqs
  import opened Paging
  import opened Http
  import opened Store
  import opened Listing
  import opened Validations

  /** A row of the contact table: the validated form plus where it came
      from, and the status the admin pages move it through. */
  datatype ContactMessage = ContactMessage(form: ContactInput, ipAddress: string, userAgent: string, status: string)

  /** The status column's default for a new message. */
  const NEW_STATUS := "new"

  // ---------------------------------------------------------------------
  // GET

  /** `where = status ? { status } : {}` */
  predicate Selected(q: Params, c: ContactMessage) {
    !Truthy(Param(q, "status")) || c.status == Param(q, "status").value
  }

  function SelectedBy(q: Params): ContactMessage -> bool {
    c => Selected(q, c)
  }

  /** `orderBy: { createdAt: 'desc' }` */
  function Order(r: Row<ContactMessage>): Key {
    Key(-(r.createdAt as int), 0, 0)
  }

  datatype ContactPage = ContactPage(data: seq<Row<ContactMessage>>, page: nat, limit: nat, total: nat, totalPages: nat)

  /** GET /api/contact: page `page` (default 1) of `limit` (default 10)
      messages, newest first. */
  function List(rows: seq<Row<ContactMessage>>, q: Params): (r: ContactPage)
    requires PageArgsOf(q, 10).Some?
    ensures r.page == PageArgsOf(q, 10).value.page && r.limit == PageArgsOf(q, 10).value.limit
    ensures !Truthy(Param(q, "page")) && !Truthy(Param(q, "limit")) ==> r.page == 1 && r.limit == 10
    ensures r.data == Page(FindMany(rows, SelectedBy(q), Order), r.page, r.limit)
    ensures r.total == CountWhere(rows, SelectedBy(q))
    ensures r.totalPages == TotalPages(r.total, r.limit)
    ensures |r.data| <= r.limit
    ensures forall i :: 0 <= i < |r.data| ==> r.data[i] in rows && Selected(q, r.data[i].data)
    ensures forall i, j :: 0 <= i < j < |r.data| ==> r.data[i].createdAt >= r.data[j].createdAt
  {
    var args := PageArgsOf(q, 10).value;
    var matching := FindMany(rows, SelectedBy(q), Order);
    var data := Page(matching, args.page, args.limit);
    MessagesPage(rows, q, args.page, args.limit, data);
    ContactPage(data, args.page, args.limit, |matching|, TotalPages(|matching|, args.limit))
  }

  /** A page of the message list, stated without the closures: no longer
      than the page size, matching messages only, newest first. */
  lemma MessagesPage(rows: seq<Row<ContactMessage>>, q: Params, page: nat, limit: nat, data: seq<Row<ContactMessage>>)
    requires page >= 1 && data == Page(FindMany(rows, SelectedBy(q), Order), page, limit)
    ensures |data| <= limit
    ensures forall i :: 0 <= i < |data| ==> data[i] in rows && Selected(q, data[i].data)
    ensures forall i, j :: 0 <= i < j < |data| ==> data[i].createdAt >= data[j].createdAt
  {
    ListedPage(rows, SelectedBy(q), Order, page, limit);
    forall i, j | 0 <= i < j < |data|
      ensures data[i].createdAt >= data[j].createdAt
    {
      assert KeyLe(Order(data[i]), Order(data[j]));
    }
  }

  // ---------------------------------------------------------------------
  // POST

  /** The outcomes of a submission: the new id only, the per-issue error
      list, or the catch-all failure. */
  datatype Submission =
    | Submitted(id: nat)
    | Rejected(errors: seq<FieldError>)
    | Failed

  function StatusOf(s: Submission): nat {
    match s
    case Submitted(_) => CREATED
    case Rejected(_) => BAD_REQUEST
    case Failed => SERVER_ERROR
  }

  /** The row the route writes: the validated fields plus `ipAddress` and
      `userAgent` from the headers. */
  function NewMessage(v: ContactInput, h: Headers): (c: ContactMessage)
    ensures c.form == v && c.status == NEW_STATUS
    ensures c.ipAddress == ClientIp(h) && c.userAgent == ClientAgent(h)
    ensures c.ipAddress != "" && c.userAgent != ""
  {
    ContactMessage(v, ClientIp(h), ClientAgent(h), NEW_STATUS)
  }

  /** POST /api/contact: `safeParse`, then one `{ field, message }` entry per
      issue (every issue, not the first), else insert and reply with the id. */
  method Submit(t: Table<ContactMessage>, f: Formats, body: Option<Body>, h: Headers, now: nat) returns (r: Submission)
    requires t.Valid()
    modifies t
    ensures t.Valid()
    ensures body.None? ==> r == Failed && t.rows == old(t.rows)
    ensures body.Some? && !Accepts(f, ContactSchema, body.value) ==>
      r == Rejected(FieldErrors(Validate(f, ContactSchema, body.value))) && t.rows == old(t.rows)
    ensures body.Some? && Accepts(f, ContactSchema, body.value) ==>
      r.Submitted? && t.rows == old(t.rows) + [Row(r.id, now, NewMessage(ContactOf(body.value), h))] &&
      forall i :: 0 <= i < |old(t.rows)| ==> old(t.rows)[i].id != r.id
  {
    if body.None? {
      return Failed;
    }
    var issues := Validate(f, ContactSchema, body.value);
    if issues != [] {
      return Rejected(FieldErrors(issues));
    }
    var id := t.Insert(NewMessage(ContactOf(body.value), h), now);
    r := Submitted(id);
  }

  /** A rejected form gets at least one error entry, one per issue, and
      every entry names one of the six contact fields. */
  lemma RejectionNamesFields(f: Formats, b: Body)
    requires !Accepts(f, ContactSchema, b)
    ensures var errs := FieldErrors(Validate(f, ContactSchema, b));
      |errs| == |Validate(f, ContactSchema, b)| && |errs| >= 1 &&
      forall e :: e in errs ==> e.field in ["name", "email", "phone", "projectType", "budget", "message"]
  {
    ContactErrorFields(f, b);
  }
}
