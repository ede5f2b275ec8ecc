/** The admin dashboard page (`src/app/admin/page.tsx`) and the contact
    inbox page (`src/app/admin/contacts/page.tsx`): the figures the
    dashboard derives from four list replies, and the inbox's query,
    pager, labels and status update. Each fetch is a parameter: its reply,
    or `None` when the request or its JSON reading threw. */
module AdminPages {
  import opened Common
  import opened Seqs
  import opened Http
  import opened Paging
  import Contact

  // ---------------------------------------------------------------------
  // Dashboard

  /** The fields of a contact message the dashboard keeps for its list. */
  datatype ContactSummary = ContactSummary(
    id: string, name: string, email: string, projectType: string, status: string, createdAt: string)

  /** The parts of the four replies the dashboard reads: `data` and
      `pagination.total` of the contact reply, the statuses of the projects,
      the approval flags of the testimonials, and `pagination.total` of the
      subscriber reply; an absent member is `None`. */
  datatype DashboardReplies = DashboardReplies(
    contacts: Option<seq<ContactSummary>>, contactsTotal: Option<nat>,
    projectStatuses: Option<seq<string>>, testimonialApprovals: Option<seq<bool>>,
    subscribersTotal: Option<nat>)

  datatype DashboardStats = DashboardStats(
    contactsTotal: nat, contactsNew: nat, projectsTotal: nat, projectsPublished: nat,
    testimonialsTotal: nat, testimonialsPending: nat, subscribers: nat)

  predicate IsNew(c: ContactSummary) {
    c.status == "new"
  }

  predicate IsPublished(status: string) {
    status == "published"
  }

  predicate IsPending(approved: bool) {
    !approved
  }

  /** The `setStats` argument: totals from `pagination.total` or list
      lengths, sub-counts from filters over the fetched lists, 0 for
      anything absent. */
  function StatsOf(r: DashboardReplies): (s: DashboardStats)
    ensures s.contactsTotal == r.contactsTotal.GetOr(0) && s.subscribers == r.subscribersTotal.GetOr(0)
    ensures s.contactsNew <= |r.contacts.GetOr([])|
    ensures s.projectsTotal == |r.projectStatuses.GetOr([])| && s.projectsPublished <= s.projectsTotal
    ensures s.testimonialsTotal == |r.testimonialApprovals.GetOr([])| && s.testimonialsPending <= s.testimonialsTotal
    ensures s.contactsNew == |Filter(r.contacts.GetOr([]), IsNew)|
    ensures s.projectsPublished == |Filter(r.projectStatuses.GetOr([]), IsPublished)|
    ensures s.testimonialsPending == |Filter(r.testimonialApprovals.GetOr([]), IsPending)|
  {
    CountExtremes(r.contacts.GetOr([]), IsNew);
    CountExtremes(r.projectStatuses.GetOr([]), IsPublished);
    CountExtremes(r.testimonialApprovals.GetOr([]), IsPending);
    DashboardStats(
      r.contactsTotal.GetOr(0), Count(r.contacts.GetOr([]), IsNew),
      |r.projectStatuses.GetOr([])|, Count(r.projectStatuses.GetOr([]), IsPublished),
      |r.testimonialApprovals.GetOr([])|, Count(r.testimonialApprovals.GetOr([]), IsPending),
      r.subscribersTotal.GetOr(0))
  }

  /** The new-message figure counts only the fetched contacts, so it is
      every fetched one exactly when all of them are new, and 0 exactly
      when none is. */
  lemma NewCountsFetchedOnly(r: DashboardReplies)
    ensures StatsOf(r).contactsNew == |r.contacts.GetOr([])| <==>
      forall i :: 0 <= i < |r.contacts.GetOr([])| ==> r.contacts.GetOr([])[i].status == "new"
    ensures StatsOf(r).contactsNew == 0 <==>
      forall i :: 0 <= i < |r.contacts.GetOr([])| ==> r.contacts.GetOr([])[i].status != "new"
  {
    CountExtremes(r.contacts.GetOr([]), IsNew);
  }

  /** The pending figure is 0 exactly when every fetched testimonial is
      approved. */
  lemma NoPendingMeansAllApproved(r: DashboardReplies)
    ensures StatsOf(r).testimonialsPending == 0 <==>
      forall i :: 0 <= i < |r.testimonialApprovals.GetOr([])| ==> r.testimonialApprovals.GetOr([])[i]
  {
    CountExtremes(r.testimonialApprovals.GetOr([]), IsPending);
  }

  class DashboardPage {
    var stats: Option<DashboardStats>
    var loading: bool
    var recentContacts: seq<ContactSummary>

    constructor ()
      ensures stats.None? && loading && recentContacts == []
    {
      stats := None;
      loading := true;
      recentContacts := [];
    }

    /** `fetchDashboardData`, on mount and from the refresh button: a
        failure leaves the figures and the list as they were, and the page
        stops loading either way. */
    method FetchDashboardData(replies: Option<DashboardReplies>)
      modifies this
      ensures !loading
      ensures replies.None? ==> stats == old(stats) && recentContacts == old(recentContacts)
      ensures replies.Some? ==>
        stats == Some(StatsOf(replies.value)) && recentContacts == replies.value.contacts.GetOr([])
    {
      if replies.Some? {
        stats := Some(StatsOf(replies.value));
        recentContacts := replies.value.contacts.GetOr([]);
      }
      loading := false;
    }

    /** The four card values, `stats?.x || 0`. */
    function CardValues(): (r: seq<nat>)
      reads this
      ensures |r| == 4
      ensures stats.None? ==> r == [0, 0, 0, 0]
      ensures stats.Some? ==> r[0] == stats.value.contactsTotal && r[3] == stats.value.subscribers
    {
      match stats
      case None => [0, 0, 0, 0]
      case Some(s) => [s.contactsTotal, s.projectsTotal, s.testimonialsTotal, s.subscribers]
    }
  }

  // ---------------------------------------------------------------------
  // Contact inbox

  datatype ContactEntry = ContactEntry(
    id: string, name: string, email: string, phone: Option<string>, projectType: string,
    budget: Option<string>, message: string, status: string, notes: Option<string>, createdAt: string)

  /** The inbox's `URLSearchParams`: the page, a limit of 10, and the
      status only when a filter is chosen. */
  function QueryOf(page: nat, statusFilter: string): (q: Params)
    ensures ParamIs(q, "limit", "10")
    ensures "page" in q && ParseInt(q["page"]) == Some(page)
    ensures "status" in q <==> statusFilter != ""
    ensures "status" in q ==> q["status"] == statusFilter
    ensures forall k :: k in q ==> k == "page" || k == "limit" || k == "status"
  {
    ParseNatToString(page);
    var base := map["page" := NatToString(page), "limit" := "10"];
    if statusFilter != "" then base["status" := statusFilter] else base
  }

  /** The contact route reads the inbox's query back as the same page of
      10 messages. */
  lemma QueryReadByRoute(page: nat, statusFilter: string)
    requires page >= 1
    ensures PageArgsOf(QueryOf(page, statusFilter), 10) == Some(PageArgs(page, 10))
  {
    QueryText(page, statusFilter);
    ReadBack(QueryOf(page, statusFilter), page, 10);
  }

  /** The page and the limit are written as `String(n)` writes them. */
  lemma QueryText(page: nat, statusFilter: string)
    ensures "page" in QueryOf(page, statusFilter) && QueryOf(page, statusFilter)["page"] == NatToString(page)
    ensures "limit" in QueryOf(page, statusFilter) && QueryOf(page, statusFilter)["limit"] == NatToString(10)
  {
    assert NatToString(10) == "10";
  }

  /** Parameters written with `String(n)` are read back as `n`. */
  lemma ReadBack(q: Params, page: nat, limit: nat)
    requires page >= 1 && limit >= 1
    requires "page" in q && q["page"] == NatToString(page)
    requires "limit" in q && q["limit"] == NatToString(limit)
    ensures PageArgsOf(q, limit) == Some(PageArgs(page, limit))
  {
    ParseNatToString(page);
    ParseNatToString(limit);
    assert IntParam(q, "page", 1) == Some(page);
    assert IntParam(q, "limit", limit) == Some(limit);
  }

  /** The contact route keeps exactly the messages with the chosen status,
      or every message when no status is chosen. */
  lemma QueryFiltersByStatus(page: nat, statusFilter: string, c: Contact.ContactMessage)
    ensures Contact.Selected(QueryOf(page, statusFilter), c) <==> statusFilter == "" || c.status == statusFilter
  {
  }

  /** The previous-page button: `Math.max(1, p - 1)`. */
  function PrevPage(p: int): (r: int)
    ensures r >= 1 && (p >= 1 ==> r <= p)
    ensures p > 1 ==> r == p - 1
  {
    if p - 1 > 1 then p - 1 else 1
  }

  /** The next-page button: `Math.min(totalPages, p + 1)`. */
  function NextPage(p: int, totalPages: int): (r: int)
    ensures r <= totalPages && r <= p + 1
    ensures p < totalPages ==> r == p + 1
  {
    if totalPages < p + 1 then totalPages else p + 1
  }

  /** Between page 1 and the last page the buttons stay within the pages,
      and going forward then back (or back then forward) returns to the
      same page away from the ends. */
  lemma PagerStaysInRange(p: int, totalPages: int)
    requires 1 <= p <= totalPages
    ensures 1 <= PrevPage(p) <= p && p <= NextPage(p, totalPages) <= totalPages
    ensures p < totalPages ==> PrevPage(NextPage(p, totalPages)) == p
    ensures p > 1 ==> NextPage(PrevPage(p), totalPages) == p
  {
  }

  /** The badge style of a status, by name. */
  const StatusStyles: map<string, string> := map[
    "new" := "bg-green-600/20 text-green-400",
    "contacted" := "bg-blue-600/20 text-blue-400",
    "qualified" := "bg-purple-600/20 text-purple-400",
    "converted" := "bg-yellow-600/20 text-yellow-400",
    "rejected" := "bg-red-600/20 text-red-400"]

  const StatusLabels: map<string, string> := map[
    "new" := "جديد",
    "contacted" := "تم التواصل",
    "qualified" := "مؤهل",
    "converted" := "تم التحويل",
    "rejected" := "مرفوض"]

  const ProjectTypeLabels: map<string, string> := map[
    "web" := "تطوير ويب",
    "mobile" := "تطبيق موبايل",
    "uiux" := "تصميم UI/UX",
    "other" := "أخرى"]

  /** `styles[status] || styles.new` and `labels[status] || status`: an
      unknown status is shown as itself, in the style of a new message. */
  function StatusBadge(status: string): (r: (string, string))
    ensures status in StatusStyles ==> r == (StatusStyles[status], StatusLabels[status])
    ensures status !in StatusStyles ==> r == (StatusStyles["new"], status)
  {
    if status in StatusStyles then (StatusStyles[status], StatusLabels[status])
    else (StatusStyles["new"], status)
  }

  /** `labels[type] || type`: an unknown project type is shown as its code. */
  function ProjectTypeLabel(kind: string): (r: string)
    ensures kind in ProjectTypeLabels ==> r == ProjectTypeLabels[kind]
    ensures kind !in ProjectTypeLabels ==> r == kind
  {
    if kind in ProjectTypeLabels then ProjectTypeLabels[kind] else kind
  }

  /** A successful list reply's `data` and `pagination.totalPages`. */
  datatype ContactsReply = ContactsReply(success: bool, data: seq<ContactEntry>, totalPages: nat)

  class ContactsPage {
    var contacts: seq<ContactEntry>
    var loading: bool
    var selected: Option<ContactEntry>
    var statusFilter: string
    var page: int
    var totalPages: int

    constructor ()
      ensures contacts == [] && loading && selected.None? && statusFilter == "" && page == 1 && totalPages == 1
    {
      contacts := [];
      loading := true;
      selected := None;
      statusFilter := "";
      page := 1;
      totalPages := 1;
    }

    /** `fetchContacts`: only a successful reply replaces the list and the
        page count. */
    method FetchContacts(reply: Option<ContactsReply>)
      modifies this
      ensures !loading
      ensures reply.Some? && reply.value.success ==>
        contacts == reply.value.data && totalPages == reply.value.totalPages
      ensures reply.None? || !reply.value.success ==>
        contacts == old(contacts) && totalPages == old(totalPages)
      ensures selected == old(selected) && statusFilter == old(statusFilter) && page == old(page)
    {
      loading := true;
      if reply.Some? && reply.value.success {
        contacts := reply.value.data;
        totalPages := reply.value.totalPages;
      }
      loading := false;
    }

    /** The status select. The page is not reset, so it can lie past the
        last page of the new filter. */
    method SetStatusFilter(f: string)
      modifies this
      ensures statusFilter == f && page == old(page)
      ensures contacts == old(contacts) && selected == old(selected) && totalPages == old(totalPages)
      ensures loading == old(loading)
    {
      statusFilter := f;
    }

    method Previous()
      modifies this
      ensures page == PrevPage(old(page))
      ensures contacts == old(contacts) && selected == old(selected) && totalPages == old(totalPages)
      ensures statusFilter == old(statusFilter) && loading == old(loading)
    {
      page := PrevPage(page);
    }

    method Next()
      modifies this
      ensures page == NextPage(old(page), totalPages)
      ensures contacts == old(contacts) && selected == old(selected) && totalPages == old(totalPages)
      ensures statusFilter == old(statusFilter) && loading == old(loading)
    {
      page := NextPage(page, totalPages);
    }

    method Select(c: ContactEntry)
      modifies this
      ensures selected == Some(c)
      ensures contacts == old(contacts) && page == old(page) && totalPages == old(totalPages)
      ensures statusFilter == old(statusFilter) && loading == old(loading)
    {
      selected := Some(c);
    }

    /** `updateStatus(id, status)`: after an accepted PATCH the selected
        message, when it is the one changed, shows the new status and
        nothing else of it changes. The list itself is reloaded by a
        separate `FetchContacts`. */
    method UpdateStatus(id: string, status: string, accepted: bool)
      modifies this
      ensures accepted && old(selected).Some? && old(selected).value.id == id ==>
        selected == Some(old(selected).value.(status := status))
      ensures !accepted || old(selected).None? || old(selected).value.id != id ==> selected == old(selected)
      ensures contacts == old(contacts) && page == old(page) && totalPages == old(totalPages)
      ensures statusFilter == old(statusFilter) && loading == old(loading)
    {
      if accepted && selected.Some? && selected.value.id == id {
        selected := Some(selected.value.(status := status));
      }
    }

    /** `deleteContact`: after a confirmed, accepted DELETE nothing is
        selected. */
    method DeleteContact(confirmed: bool, accepted: bool)
      modifies this
      ensures confirmed && accepted ==> selected.None?
      ensures !(confirmed && accepted) ==> selected == old(selected)
      ensures contacts == old(contacts) && page == old(page) && totalPages == old(totalPages)
      ensures statusFilter == old(statusFilter) && loading == old(loading)
    {
      if confirmed && accepted {
        selected := None;
      }
    }
  }
}
