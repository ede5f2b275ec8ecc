/** The public sections that show API lists (`TestimonialsSection`,
    `PortfolioSection`, `ServicesBento`, `AboutTeam` under
    `src/components/`): each maps a non-empty API list item by item,
    preferring the Arabic text in right-to-left mode when there is one,
    and falls back to built-in items when the list is empty. */
module Components {
  import opened Common
  import opened Seqs
  import opened Paging

  /** `isRtl && ar ? ar : primary`: the Arabic text is used when the page
      is right-to-left and that text is neither null nor empty. */
  predicate UseArabic(isRtl: bool, ar: Option<string>) {
    isRtl && Truthy(ar)
  }

  function Localized(isRtl: bool, ar: Option<string>, primary: string): (r: string)
    ensures UseArabic(isRtl, ar) ==> r == ar.value && r != ""
    ensures !UseArabic(isRtl, ar) ==> r == primary
  {
    if UseArabic(isRtl, ar) then ar.value else primary
  }

  /** The same for a primary text that may itself be null. */
  function LocalizedOpt(isRtl: bool, ar: Option<string>, primary: Option<string>): (r: Option<string>)
    ensures UseArabic(isRtl, ar) ==> r == ar && Truthy(r)
    ensures !UseArabic(isRtl, ar) ==> r == primary
  {
    if UseArabic(isRtl, ar) then ar else primary
  }

  /** `api.length > 0 ? api.map(f) : fallback` */
  function WithFallback<A, B>(api: seq<A>, f: A -> B, fallback: seq<B>): (r: seq<B>)
    ensures |api| > 0 ==> |r| == |api| && forall i :: 0 <= i < |api| ==> r[i] == f(api[i])
    ensures api == [] ==> r == fallback
  {
    if |api| > 0 then seq(|api|, i requires 0 <= i < |api| => f(api[i])) else fallback
  }

  // ---------------------------------------------------------------------
  // Testimonials

  /** A testimonial as `/api/testimonials` returns it. */
  datatype ApiTestimonial = ApiTestimonial(
    quote: string, quoteAr: Option<string>, authorName: string, authorRole: Option<string>,
    authorRoleAr: Option<string>, authorCompany: Option<string>, authorImage: Option<string>, rating: int)

  /** A slide of the carousel; the built-in slides have no image or rating. */
  datatype Slide = Slide(
    quote: string, name: string, role: Option<string>, company: Option<string>,
    image: Option<string>, rating: Option<int>)

  function SlideOf(isRtl: bool, t: ApiTestimonial): Slide {
    Slide(Localized(isRtl, t.quoteAr, t.quote), t.authorName, LocalizedOpt(isRtl, t.authorRoleAr, t.authorRole),
          t.authorCompany, t.authorImage, Some(t.rating))
  }

  function Slides(api: seq<ApiTestimonial>, isRtl: bool, fallback: seq<Slide>): seq<Slide> {
    WithFallback(api, t => SlideOf(isRtl, t), fallback)
  }

  /** Each API testimonial gives one slide in order: its quote and role in
      the page's language where the Arabic text exists, its author, company,
      image and rating unchanged. */
  lemma SlidesMeaning(api: seq<ApiTestimonial>, isRtl: bool, fallback: seq<Slide>, i: int)
    requires 0 <= i < |api|
    ensures |Slides(api, isRtl, fallback)| == |api|
    ensures Slides(api, isRtl, fallback)[i].quote ==
      (if UseArabic(isRtl, api[i].quoteAr) then api[i].quoteAr.value else api[i].quote)
    ensures Slides(api, isRtl, fallback)[i].role ==
      (if UseArabic(isRtl, api[i].authorRoleAr) then api[i].authorRoleAr else api[i].authorRole)
    ensures Slides(api, isRtl, fallback)[i].name == api[i].authorName
    ensures Slides(api, isRtl, fallback)[i].company == api[i].authorCompany
    ensures Slides(api, isRtl, fallback)[i].rating == Some(api[i].rating)
  {
  }

  /** `(i + 1) % n`: one slide on, wrapping from the last to the first. */
  function NextSlide(i: nat, n: nat): (r: nat)
    requires n > 0
    ensures r < n
    ensures i < n ==> r == (if i + 1 < n then i + 1 else 0)
  {
    (i + 1) % n
  }

  /** `(i - 1 + n) % n`: one slide back, wrapping from the first to the
      last. */
  function PrevSlide(i: nat, n: nat): (r: nat)
    requires n > 0
    ensures r < n
    ensures i < n ==> r == (if i == 0 then n - 1 else i - 1)
  {
    (i - 1 + n) % n
  }

  /** Back undoes forward, and forward undoes back. */
  lemma PrevUndoesNext(i: nat, n: nat)
    requires i < n
    ensures PrevSlide(NextSlide(i, n), n) == i
    ensures NextSlide(PrevSlide(i, n), n) == i
  {
  }

  /** The carousel's index and its six-second rotation timer. */
  class Carousel {
    var activeIndex: nat
    var count: nat
    var timerRunning: bool

    predicate Valid()
      reads this
    {
      timerRunning ==> count > 0
    }

    constructor ()
      ensures Valid() && activeIndex == 0 && count == 0 && !timerRunning
    {
      activeIndex := 0;
      count := 0;
      timerRunning := false;
    }

    /** The effect on the slide count: the old timer is cleared and a new
        one started only when there are slides. The index is kept. */
    method SetCount(n: nat)
      modifies this
      ensures Valid()
      ensures count == n && (timerRunning <==> n > 0) && activeIndex == old(activeIndex)
    {
      count := n;
      timerRunning := n > 0;
    }

    /** A timer tick. */
    method Tick()
      requires Valid() && timerRunning
      modifies this
      ensures count == old(count) && timerRunning
      ensures Valid() && activeIndex == NextSlide(old(activeIndex), count) && activeIndex < count
    {
      activeIndex := NextSlide(activeIndex, count);
    }

    /** The arrows; they are only shown when there are slides. */
    method Next()
      requires Valid() && count > 0
      modifies this
      ensures count == old(count) && timerRunning == old(timerRunning)
      ensures Valid() && activeIndex == NextSlide(old(activeIndex), count) && activeIndex < count
    {
      activeIndex := NextSlide(activeIndex, count);
    }

    method Previous()
      requires Valid() && count > 0
      modifies this
      ensures count == old(count) && timerRunning == old(timerRunning)
      ensures Valid() && activeIndex == PrevSlide(old(activeIndex), count) && activeIndex < count
    {
      activeIndex := PrevSlide(activeIndex, count);
    }
  }

  // ---------------------------------------------------------------------
  // Portfolio

  /** A project as `/api/portfolio` returns it (the fields the section
      reads). */
  datatype ApiProject = ApiProject(
    id: string, slug: string, title: string, titleAr: Option<string>, description: string,
    descriptionAr: Option<string>, category: string, technologies: Option<seq<string>>,
    images: seq<string>, featured: bool, status: string)

  /** A built-in project of the translation table. */
  datatype BuiltInProject = BuiltInProject(title: string, description: string, category: string, tech: Option<seq<string>>)

  /** A project card. */
  datatype ProjectCard = ProjectCard(
    id: string, slug: string, title: string, description: string, category: string,
    tech: seq<string>, images: seq<string>, featured: bool, status: string)

  function ProjectCardOf(isRtl: bool, p: ApiProject): ProjectCard {
    ProjectCard(p.id, p.slug, Localized(isRtl, p.titleAr, p.title), Localized(isRtl, p.descriptionAr, p.description),
                p.category, p.technologies.GetOr([]), p.images, p.featured, p.status)
  }

  /** The built-in project at `index`: id `fallback-index`, slug and image
      numbered from 1, published and not featured. */
  function BuiltInCard(index: nat, p: BuiltInProject): (c: ProjectCard)
    ensures c.id == "fallback-" + NatToString(index) && c.slug == "project-" + NatToString(index + 1)
    ensures c.tech == p.tech.GetOr([]) && c.status == "published" && !c.featured
  {
    ProjectCard("fallback-" + NatToString(index), "project-" + NatToString(index + 1), p.title, p.description,
                p.category, p.tech.GetOr([]), ["/projects/project-" + NatToString(index + 1) + ".jpg"], false, "published")
  }

  function BuiltInCards(builtIn: seq<BuiltInProject>): (r: seq<ProjectCard>)
    ensures |r| == |builtIn|
    ensures forall i :: 0 <= i < |r| ==> r[i] == BuiltInCard(i, builtIn[i])
  {
    seq(|builtIn|, i requires 0 <= i < |builtIn| => BuiltInCard(i, builtIn[i]))
  }

  function ProjectCards(api: seq<ApiProject>, isRtl: bool, builtIn: seq<BuiltInProject>): seq<ProjectCard> {
    WithFallback(api, p => ProjectCardOf(isRtl, p), BuiltInCards(builtIn))
  }

  /** The built-in projects are numbered in order, so their ids and slugs
      are all different. */
  lemma BuiltInIdsDistinct(builtIn: seq<BuiltInProject>, i: nat, j: nat)
    requires i < j < |builtIn|
    ensures BuiltInCards(builtIn)[i].id != BuiltInCards(builtIn)[j].id
    ensures BuiltInCards(builtIn)[i].slug != BuiltInCards(builtIn)[j].slug
  {
    PrefixedDistinct("fallback-", i, j);
    PrefixedDistinct("project-", i + 1, j + 1);
  }

  /** Numbers written after the same prefix give different texts. */
  lemma PrefixedDistinct(prefix: string, i: nat, j: nat)
    requires i != j
    ensures prefix + NatToString(i) != prefix + NatToString(j)
  {
    ParseNatToString(i);
    ParseNatToString(j);
    assert (prefix + NatToString(i))[|prefix|..] == NatToString(i);
    assert (prefix + NatToString(j))[|prefix|..] == NatToString(j);
  }

  function CategoryOf(c: ProjectCard): string {
    c.category
  }

  function MapSeq<A, B>(xs: seq<A>, f: A -> B): (r: seq<B>)
    ensures |r| == |xs| && forall i :: 0 <= i < |xs| ==> r[i] == f(xs[i])
  {
    seq(|xs|, i requires 0 <= i < |xs| => f(xs[i]))
  }

  /** `["all", ...new Set(projects.map(p => p.category))]` */
  function FilterTabs(cards: seq<ProjectCard>): (r: seq<string>)
    ensures |r| >= 1 && r[0] == "all"
    ensures forall k :: 0 <= k < |cards| ==> cards[k].category in r
    ensures forall x :: x in r[1..] ==> exists k :: 0 <= k < |cards| && cards[k].category == x
    ensures forall i, j :: 1 <= i < j < |r| ==> r[i] != r[j]
    ensures forall i, j :: 1 <= i < j < |r| ==>
      r[i] in Categories(cards) && r[j] in Categories(cards) &&
      FirstIndex(Categories(cards), r[i]) < FirstIndex(Categories(cards), r[j])
  {
    TabsListed(cards);
    TabsOrdered(cards);
    ["all"] + Dedup(Categories(cards))
  }

  lemma TabsListed(cards: seq<ProjectCard>)
    ensures var r := ["all"] + Dedup(Categories(cards));
      (forall k :: 0 <= k < |cards| ==> cards[k].category in r) &&
      (forall x :: x in r[1..] ==> exists k :: 0 <= k < |cards| && cards[k].category == x)
  {
    var cats := Categories(cards);
    var r := ["all"] + Dedup(cats);
    assert forall k :: 0 <= k < |cards| ==> cats[k] in cats;
    assert r[1..] == Dedup(cats);
    forall x | x in r[1..]
      ensures exists k :: 0 <= k < |cards| && cards[k].category == x
    {
      assert x in cats;
      var k :| 0 <= k < |cats| && cats[k] == x;
    }
  }

  lemma TabsOrdered(cards: seq<ProjectCard>)
    ensures var r := ["all"] + Dedup(Categories(cards));
      forall i, j :: 1 <= i < j < |r| ==>
        r[i] != r[j] &&
        r[i] in Categories(cards) && r[j] in Categories(cards) &&
        FirstIndex(Categories(cards), r[i]) < FirstIndex(Categories(cards), r[j])
  {
    var tabs := Dedup(Categories(cards));
    var r := ["all"] + tabs;
    DedupOrdered(Categories(cards), {});
    assert forall i :: 1 <= i < |r| ==> r[i] == tabs[i - 1];
  }

  /** The cards' categories, card by card. */
  function Categories(cards: seq<ProjectCard>): (r: seq<string>)
    ensures |r| == |cards| && forall k :: 0 <= k < |cards| ==> r[k] == cards[k].category
  {
    MapSeq(cards, CategoryOf)
  }

  predicate InCategory(filter: string, c: ProjectCard) {
    c.category == filter
  }

  /** The cards the active tab shows. */
  function Shown(cards: seq<ProjectCard>, filter: string): (r: seq<ProjectCard>)
    ensures filter == "all" ==> r == cards
    ensures filter != "all" ==> forall i :: 0 <= i < |r| ==> r[i].category == filter
    ensures filter != "all" ==> forall c :: c in r <==> c in cards && c.category == filter
  {
    if filter == "all" then cards
    else
      var r := Filter(cards, c => InCategory(filter, c));
      forall c
        ensures c in r <==> c in cards && c.category == filter
      {
        FilterMember(cards, c => InCategory(filter, c), c);
      }
      r
  }

  // ---------------------------------------------------------------------
  // Services

  /** A service as `/api/services` returns it (the fields the section
      reads). */
  datatype ApiService = ApiService(
    id: string, slug: string, title: string, titleAr: Option<string>, shortDescription: string,
    shortDescAr: Option<string>, features: seq<string>, featuresAr: Option<seq<string>>, icon: Option<string>)

  /** A bento card; `icon` is the key of the icon table entry it shows. */
  datatype ServiceCard = ServiceCard(id: string, title: string, description: string, details: seq<string>, icon: string)

  /** The keys of the icon table. */
  const ICONS: set<string> := {
    "\U{1F680}", "\U{1F4BB}", "\U{1F4F1}", "\U{1F3A8}", "\U{26A1}", "\U{1F527}", "\U{1F310}",
    "\U{1F4CA}", "\U{1F6E1}\U{FE0F}", "\U{1F3AF}", "default"}

  /** `serviceIcons[icon || ''] || serviceIcons['default']` */
  function IconKey(icon: Option<string>): (r: string)
    ensures r in ICONS
    ensures Truthy(icon) && icon.value in ICONS ==> r == icon.value
    ensures !(Truthy(icon) && icon.value in ICONS) ==> r == "default"
  {
    if Truthy(icon) && icon.value in ICONS then icon.value else "default"
  }

  function ServiceCardOf(isRtl: bool, s: ApiService): ServiceCard {
    ServiceCard(
      if s.slug != "" then s.slug else s.id,
      Localized(isRtl, s.titleAr, s.title),
      Localized(isRtl, s.shortDescAr, s.shortDescription),
      if isRtl && s.featuresAr.Some? && |s.featuresAr.value| > 0 then s.featuresAr.value else s.features,
      IconKey(s.icon))
  }

  /** The texts of one built-in card in the translation table. */
  datatype BentoText = BentoText(title: string, desc: string, details: seq<string>)

  /** The four built-in cards: web, design, mobile and cloud. */
  function BuiltInServices(web: BentoText, design: BentoText, mobile: BentoText, cloud: BentoText): (r: seq<ServiceCard>)
    ensures |r| == 4
    ensures forall i :: 0 <= i < 4 ==> r[i].icon in ICONS
  {
    [ServiceCard("web", web.title, web.desc, web.details, "\U{1F4BB}"),
     ServiceCard("design", design.title, design.desc, design.details, "\U{1F3A8}"),
     ServiceCard("mobile", mobile.title, mobile.desc, mobile.details, "\U{1F4F1}"),
     ServiceCard("cloud", cloud.title, cloud.desc, cloud.details, "default")]
  }

  function ServiceCards(api: seq<ApiService>, isRtl: bool, builtIn: seq<ServiceCard>): seq<ServiceCard> {
    WithFallback(api, s => ServiceCardOf(isRtl, s), builtIn)
  }

  /** Card `i` of a non-empty API list: its id is the slug unless that is
      empty, its details the Arabic features only in right-to-left mode
      when there are some, and its icon always one the table has. */
  lemma ServiceCardsMeaning(api: seq<ApiService>, isRtl: bool, builtIn: seq<ServiceCard>, i: int)
    requires 0 <= i < |api|
    ensures |ServiceCards(api, isRtl, builtIn)| == |api|
    ensures ServiceCards(api, isRtl, builtIn)[i].id == (if api[i].slug != "" then api[i].slug else api[i].id)
    ensures ServiceCards(api, isRtl, builtIn)[i].title == Localized(isRtl, api[i].titleAr, api[i].title)
    ensures ServiceCards(api, isRtl, builtIn)[i].details ==
      (if isRtl && api[i].featuresAr.Some? && |api[i].featuresAr.value| > 0 then api[i].featuresAr.value
       else api[i].features)
    ensures ServiceCards(api, isRtl, builtIn)[i].icon in ICONS
  {
  }

  // ---------------------------------------------------------------------
  // Team

  /** A member as `/api/team` returns it (the fields the section reads). */
  datatype ApiMember = ApiMember(
    name: string, nameAr: Option<string>, role: string, roleAr: Option<string>, bio: Option<string>,
    bioAr: Option<string>, image: Option<string>, linkedin: Option<string>, twitter: Option<string>,
    github: Option<string>)

  datatype MemberCard = MemberCard(
    name: string, role: string, bio: Option<string>, image: Option<string>, linkedin: Option<string>,
    twitter: Option<string>, github: Option<string>)

  function MemberCardOf(isRtl: bool, m: ApiMember): MemberCard {
    MemberCard(Localized(isRtl, m.nameAr, m.name), Localized(isRtl, m.roleAr, m.role),
               LocalizedOpt(isRtl, m.bioAr, m.bio), m.image, m.linkedin, m.twitter, m.github)
  }

  function MemberCards(api: seq<ApiMember>, isRtl: bool, builtIn: seq<MemberCard>): seq<MemberCard> {
    WithFallback(api, m => MemberCardOf(isRtl, m), builtIn)
  }

  /** In left-to-right mode every member shows the primary texts; the image
      and the social links pass through in every mode. */
  lemma MemberCardsMeaning(api: seq<ApiMember>, isRtl: bool, builtIn: seq<MemberCard>, i: int)
    requires 0 <= i < |api|
    ensures |MemberCards(api, isRtl, builtIn)| == |api|
    ensures !isRtl ==> (MemberCards(api, isRtl, builtIn)[i].name == api[i].name &&
      MemberCards(api, isRtl, builtIn)[i].role == api[i].role && MemberCards(api, isRtl, builtIn)[i].bio == api[i].bio)
    ensures MemberCards(api, isRtl, builtIn)[i].image == api[i].image
    ensures MemberCards(api, isRtl, builtIn)[i].linkedin == api[i].linkedin
    ensures MemberCards(api, isRtl, builtIn)[i].twitter == api[i].twitter
    ensures MemberCards(api, isRtl, builtIn)[i].github == api[i].github
  {
  }
}
