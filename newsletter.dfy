/** `src/app/api/newsletter/route.ts`: the active-subscriber list and the
    subscribe operation, whose three outcomes are conflict, reactivation
    and creation. */
module Newsletter {
  import opened Common
  import opened Seqs
  import opened Paging
  import opened Http
  import opened Store
  import opened Listing
  import opened Validations

  /** A row of the subscriber table; `email` is unique. */
  datatype Subscriber = Subscriber(email: string, isActive: bool, subscribedAt: nat, unsubscribedAt: Option<nat>)

  /** No two rows share an email (the column's unique index). */
  ghost predicate UniqueEmails(rows: seq<Row<Subscriber>>) {
    forall i, j :: 0 <= i < j < |rows| ==> rows[i].data.email != rows[j].data.email
  }

  // ---------------------------------------------------------------------
  // GET

  predicate Active(s: Subscriber) {
    s.isActive
  }

  /** `orderBy: { subscribedAt: 'desc' }` */
  function Order(r: Row<Subscriber>): Key {
    Key(-(r.data.subscribedAt as int), 0, 0)
  }

  datatype SubscriberPage = SubscriberPage(data: seq<Row<Subscriber>>, page: nat, limit: nat, total: nat, totalPages: nat)

  /** GET /api/newsletter: page `page` (default 1) of `limit` (default 50)
      active subscribers, latest subscription first; `total` counts active
      subscribers only. */
  function List(rows: seq<Row<Subscriber>>, q: Params): (r: SubscriberPage)
    requires PageArgsOf(q, 50).Some?
    ensures r.page == PageArgsOf(q, 50).value.page && r.limit == PageArgsOf(q, 50).value.limit
    ensures r.data == Page(FindMany(rows, Active, Order), r.page, r.limit)
    ensures r.total == CountWhere(rows, Active)
    ensures r.totalPages == TotalPages(r.total, r.limit)
    ensures |r.data| <= r.limit
    ensures forall i :: 0 <= i < |r.data| ==> r.data[i] in rows && r.data[i].data.isActive
    ensures forall i, j :: 0 <= i < j < |r.data| ==> r.data[i].data.subscribedAt >= r.data[j].data.subscribedAt
  {
    var args := PageArgsOf(q, 50).value;
    var matching := FindMany(rows, Active, Order);
    var data := Page(matching, args.page, args.limit);
    SubscribersPage(rows, args.page, args.limit, data);
    SubscriberPage(data, args.page, args.limit, |matching|, TotalPages(|matching|, args.limit))
  }

  /** A page of the subscriber list, stated without the closures: no
      longer than the page size, active subscribers only, latest first. */
  lemma SubscribersPage(rows: seq<Row<Subscriber>>, page: nat, limit: nat, data: seq<Row<Subscriber>>)
    requires page >= 1 && data == Page(FindMany(rows, Active, Order), page, limit)
    ensures |data| <= limit
    ensures forall i :: 0 <= i < |data| ==> data[i] in rows && data[i].data.isActive
    ensures forall i, j :: 0 <= i < j < |data| ==> data[i].data.subscribedAt >= data[j].data.subscribedAt
  {
    ListedPage(rows, Active, Order, page, limit);
    forall i, j | 0 <= i < j < |data|
      ensures data[i].data.subscribedAt >= data[j].data.subscribedAt
    {
      assert KeyLe(Order(data[i]), Order(data[j]));
    }
  }

  // ---------------------------------------------------------------------
  // POST

  /** Position of the row for `email`, or |rows| when there is none
      (`findUnique({ where: { email } })`). */
  function IndexOfEmail(rows: seq<Row<Subscriber>>, email: string): (i: nat)
    ensures i <= |rows|
    ensures i < |rows| ==> rows[i].data.email == email
    ensures i == |rows| ==> forall j :: 0 <= j < |rows| ==> rows[j].data.email != email
  {
    if rows == [] then 0
    else if rows[0].data.email == email then 0
    else 1 + IndexOfEmail(rows[1..], email)
  }

  /** How many rows hold `email`. */
  function Holders(rows: seq<Row<Subscriber>>, email: string): nat {
    if rows == [] then 0
    else (if rows[0].data.email == email then 1 else 0) + Holders(rows[1..], email)
  }

  /** With unique emails, an email held by some row is held by exactly one. */
  lemma {:induction false} SingleHolder(rows: seq<Row<Subscriber>>, email: string, i: nat)
    requires UniqueEmails(rows) && i < |rows| && rows[i].data.email == email
    ensures Holders(rows, email) == 1
  {
    if i == 0 {
      NoHolder(rows[1..], email);
    } else {
      SingleHolder(rows[1..], email, i - 1);
    }
  }

  lemma {:induction false} NoHolder(rows: seq<Row<Subscriber>>, email: string)
    requires forall j :: 0 <= j < |rows| ==> rows[j].data.email != email
    ensures Holders(rows, email) == 0
  {
    if rows != [] {
      NoHolder(rows[1..], email);
    }
  }

  datatype Outcome = AlreadySubscribed | Reactivated | Subscribed | Failed

  function StatusOf(o: Outcome): nat {
    match o
    case AlreadySubscribed => BAD_REQUEST
    case Reactivated => OK
    case Subscribed => CREATED
    case Failed => SERVER_ERROR
  }

  /** POST /api/newsletter. A refused email is not told apart from other
      failures: it is a 500. */
  method Subscribe(t: Table<Subscriber>, f: Formats, body: Option<Body>, now: nat) returns (o: Outcome)
    requires t.Valid() && UniqueEmails(t.rows)
    modifies t
    ensures t.Valid() && UniqueEmails(t.rows)
    ensures (body.None? || !Accepts(f, NewsletterSchema, body.value)) ==> o == Failed && t.rows == old(t.rows)
    ensures o == AlreadySubscribed ==> t.rows == old(t.rows)
    ensures body.Some? && Accepts(f, NewsletterSchema, body.value) ==>
      var email := body.value["email"].s;
      var i := IndexOfEmail(old(t.rows), email);
      (i < |old(t.rows)| && old(t.rows)[i].data.isActive ==> o == AlreadySubscribed) &&
      (i < |old(t.rows)| && !old(t.rows)[i].data.isActive ==>
        o == Reactivated &&
        t.rows == old(t.rows)[i := Row(old(t.rows)[i].id, old(t.rows)[i].createdAt,
                                      old(t.rows)[i].data.(isActive := true, unsubscribedAt := None))]) &&
      (i == |old(t.rows)| ==>
        o == Subscribed && |t.rows| == |old(t.rows)| + 1 && t.rows[..|old(t.rows)|] == old(t.rows) &&
        t.rows[|old(t.rows)|].data == Subscriber(email, true, now, None)) &&
      Holders(t.rows, email) == 1 &&
      IndexOfEmail(t.rows, email) < |t.rows| && t.rows[IndexOfEmail(t.rows, email)].data.isActive
  {
    if body.None? || !Accepts(f, NewsletterSchema, body.value) {
      return Failed;
    }
    NewsletterAcceptance(f, body.value);
    var email := body.value["email"].s;
    var i := IndexOfEmail(t.rows, email);
    if i < |t.rows| {
      SingleHolder(t.rows, email, i);
      if t.rows[i].data.isActive {
        return AlreadySubscribed;
      }
      t.Replace(i, t.rows[i].data.(isActive := true, unsubscribedAt := None));
      SingleHolder(t.rows, email, i);
      return Reactivated;
    }
    var id := t.Insert(Subscriber(email, true, now, None), now);
    SingleHolder(t.rows, email, |t.rows| - 1);
    o := Subscribed;
  }
}
