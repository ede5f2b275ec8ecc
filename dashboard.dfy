/** `src/app/api/admin/dashboard/route.ts`: the overview figures of the
    admin dashboard, read from every table at once. */
module Dashboard {
  import opened Common
  import opened Seqs
  import opened Http
  import opened Store
  import opened Listing
  import opened Keyed
  import Contact
  import Portfolio
  import Services
  import Testimonials
  import Newsletter
  import Stats

  /** A blog post; only the status is read here. The blog tables are not
      otherwise part of this model. */
  datatype BlogPost = BlogPost(status: string)

  /** An order, with the columns the dashboard selects. The order tables
      are not otherwise part of this model. */
  datatype Order = Order(orderNumber: string, amount: int, currency: string, status: string, paymentStatus: string)

  /** The tables the dashboard reads. */
  datatype Database = Database(
    contacts: seq<Row<Contact.ContactMessage>>, projects: seq<Row<Portfolio.Project>>,
    services: seq<Row<Services.Service>>, posts: seq<Row<BlogPost>>,
    testimonials: seq<Row<Testimonials.Testimonial>>, subscribers: seq<Row<Newsletter.Subscriber>>,
    orders: seq<Row<Order>>, stats: seq<Row<Stats.Stat>>)

  function Everything<T>(x: T): bool { true }

  /** `orderBy: { createdAt: 'desc' }` */
  function NewestFirst<T>(r: Row<T>): Key {
    Key(-(r.createdAt as int), 0, 0)
  }

  lemma EverythingKept<T>(rows: seq<Row<T>>)
    ensures Filter(rows, OnData(Everything)) == rows
  {
    forall i | 0 <= i < |rows|
      ensures OnData(Everything)(rows[i])
    {
      assert Everything(rows[i].data);
    }
    FilterAll(rows, OnData(Everything));
  }

  /** Every row, newest first. */
  function ByAge<T>(rows: seq<Row<T>>): (r: seq<Row<T>>)
    ensures |r| == |rows|
    ensures forall i :: 0 <= i < |r| ==> r[i] in rows
    ensures forall i :: 0 <= i < |rows| ==> rows[i] in r
    ensures forall i, j :: 0 <= i < j < |r| ==> r[i].createdAt >= r[j].createdAt
  {
    EverythingKept(rows);
    var r := FindMany(rows, Everything, NewestFirst);
    assert forall i, j :: 0 <= i < j < |r| ==> KeyLe(NewestFirst(r[i]), NewestFirst(r[j]));
    r
  }

  /** `findMany({ take: n, orderBy: { createdAt: 'desc' } })`: the `n`
      newest rows, newest first; a row left out is no newer than any row
      listed. */
  function Recent<T>(rows: seq<Row<T>>, n: nat): (r: seq<Row<T>>)
    ensures |r| == if |rows| < n then |rows| else n
    ensures forall i :: 0 <= i < |r| ==> r[i] in rows
    ensures forall i, j :: 0 <= i < j < |r| ==> r[i].createdAt >= r[j].createdAt
    ensures forall k, i :: 0 <= k < |rows| && 0 <= i < |r| && rows[k].createdAt > r[i].createdAt ==> rows[k] in r
  {
    var all := ByAge(rows);
    var r := Take(all, n);
    TakeNewest(rows, Everything, all, r);
    r
  }

  predicate NewContact(c: Contact.ContactMessage) { c.status == "new" }
  predicate Published(p: Portfolio.Project) { p.status == "published" }
  predicate ActiveService(s: Services.Service) { s.isActive }
  predicate PublishedPost(b: BlogPost) { b.status == "published" }
  predicate Approved(t: Testimonials.Testimonial) { t.approved }
  predicate ActiveSubscriber(s: Newsletter.Subscriber) { s.isActive }
  predicate Pending(o: Order) { o.status == "pending" }

  /** The twelve `count` reads. */
  datatype Counts = Counts(
    contactsTotal: nat, contactsNew: nat, projectsTotal: nat, projectsPublished: nat,
    services: nat, blogTotal: nat, blogPublished: nat, testimonials: nat,
    subscribersTotal: nat, subscribersActive: nat, ordersTotal: nat, ordersPending: nat)

  /** Each narrowed figure counts a part of its table, so it never exceeds
      the table's total; services and testimonials count only active and
      approved rows. */
  function CountsOf(db: Database): (c: Counts)
    ensures c.contactsTotal == |db.contacts| && c.contactsNew <= c.contactsTotal
    ensures c.projectsTotal == |db.projects| && c.projectsPublished <= c.projectsTotal
    ensures c.blogTotal == |db.posts| && c.blogPublished <= c.blogTotal
    ensures c.subscribersTotal == |db.subscribers| && c.subscribersActive <= c.subscribersTotal
    ensures c.ordersTotal == |db.orders| && c.ordersPending <= c.ordersTotal
    ensures c.services <= |db.services| && c.testimonials <= |db.testimonials|
    ensures c.contactsNew == |Filter(db.contacts, OnData(NewContact))|
    ensures c.projectsPublished == |Filter(db.projects, OnData(Published))|
    ensures c.blogPublished == |Filter(db.posts, OnData(PublishedPost))|
    ensures c.services == |Filter(db.services, OnData(ActiveService))|
    ensures c.testimonials == |Filter(db.testimonials, OnData(Approved))|
    ensures c.subscribersActive == |Filter(db.subscribers, OnData(ActiveSubscriber))|
    ensures c.ordersPending == |Filter(db.orders, OnData(Pending))|
  {
    Counts(
      |db.contacts|, CountWhere(db.contacts, NewContact),
      |db.projects|, CountWhere(db.projects, Published),
      CountWhere(db.services, ActiveService),
      |db.posts|, CountWhere(db.posts, PublishedPost),
      CountWhere(db.testimonials, Approved),
      |db.subscribers|, CountWhere(db.subscribers, ActiveSubscriber),
      |db.orders|, CountWhere(db.orders, Pending))
  }

  /** `select: { id, name, email, projectType, status, createdAt }` */
  datatype ContactBrief = ContactBrief(id: nat, name: string, email: string, projectType: string,
                                       status: string, createdAt: nat)

  /** `select: { id, orderNumber, amount, currency, status, paymentStatus, createdAt }` */
  datatype OrderBrief = OrderBrief(id: nat, orderNumber: string, amount: int, currency: string,
                                   status: string, paymentStatus: string, createdAt: nat)

  function ContactBriefs(rows: seq<Row<Contact.ContactMessage>>): (r: seq<ContactBrief>)
    ensures |r| == |rows|
    ensures forall i :: 0 <= i < |r| ==>
      r[i].id == rows[i].id && r[i].createdAt == rows[i].createdAt && r[i].status == rows[i].data.status &&
      r[i].name == rows[i].data.form.name && r[i].email == rows[i].data.form.email &&
      r[i].projectType == rows[i].data.form.projectType
  {
    seq(|rows|, i requires 0 <= i < |rows| =>
      var c := rows[i];
      ContactBrief(c.id, c.data.form.name, c.data.form.email, c.data.form.projectType, c.data.status, c.createdAt))
  }

  function OrderBriefs(rows: seq<Row<Order>>): (r: seq<OrderBrief>)
    ensures |r| == |rows|
    ensures forall i :: 0 <= i < |r| ==>
      r[i].id == rows[i].id && r[i].createdAt == rows[i].createdAt &&
      OrderBrief(r[i].id, rows[i].data.orderNumber, rows[i].data.amount, rows[i].data.currency,
                 rows[i].data.status, rows[i].data.paymentStatus, r[i].createdAt) == r[i]
  {
    seq(|rows|, i requires 0 <= i < |rows| =>
      var o := rows[i];
      OrderBrief(o.id, o.data.orderNumber, o.data.amount, o.data.currency, o.data.status, o.data.paymentStatus, o.createdAt))
  }

  datatype Summary = Summary(counts: Counts, siteStats: map<string, int>,
                             recentContacts: seq<ContactBrief>, recentOrders: seq<OrderBrief>)

  /** GET /api/admin/dashboard. Any session is enough (the role is not
      looked at); `readFails` stands for any of the reads failing, which
      gives a 500 and no partial summary. */
  method Summarize(session: Option<Session>, db: Database, readFails: bool) returns (r: Reply<Summary>)
    ensures session.None? ==> r == Fail(UNAUTHORIZED, "unauthorized")
    ensures session.Some? && readFails ==> r == Fail(SERVER_ERROR, "fetch failed")
    ensures session.Some? && !readFails ==> r.Ok? && r.status == OK
    ensures r.Ok? ==> r.data.counts == CountsOf(db)
    ensures r.Ok? ==> r.data.siteStats == Collect(db.stats, Stats.KeyOf, Stats.ValueOf)
    ensures r.Ok? ==> r.data.recentContacts == ContactBriefs(Recent(db.contacts, 5))
    ensures r.Ok? ==> r.data.recentOrders == OrderBriefs(Recent(db.orders, 5))
  {
    if session.None? {
      return Fail(UNAUTHORIZED, "unauthorized");
    }
    if readFails {
      return Fail(SERVER_ERROR, "fetch failed");
    }
    var stats := Stats.StatsObject(db.stats);
    r := Ok(OK, Summary(CountsOf(db), stats, ContactBriefs(Recent(db.contacts, 5)), OrderBriefs(Recent(db.orders, 5))));
  }

  /** `siteStats` has an entry for every stored key, holding that row's
      value when keys are unique. */
  lemma SiteStatsMeaning(rows: seq<Row<Stats.Stat>>, k: string)
    requires UniqueKeys(rows, Stats.KeyOf)
    ensures k in Collect(rows, Stats.KeyOf, Stats.ValueOf) <==> exists i :: 0 <= i < |rows| && rows[i].data.key == k
    ensures forall i :: 0 <= i < |rows| && rows[i].data.key == k ==>
      Collect(rows, Stats.KeyOf, Stats.ValueOf)[k] == rows[i].data.value
  {
    CollectLookup(rows, Stats.KeyOf, Stats.ValueOf, k);
  }
}
