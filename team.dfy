/** `src/app/api/team/route.ts`: the team list (public callers see active
    members only) and member creation. */
module Team {
  import opened Common
  import opened Seqs
  import opened Http
  import opened Store
  import opened Listing
  import opened Validations

  /** A row of the team table. */
  datatype TeamMember = TeamMember(
    name: string, nameAr: Option<string>, role: string, roleAr: Option<string>,
    bio: Option<string>, bioAr: Option<string>, image: Option<string>,
    linkedin: Option<string>, twitter: Option<string>, github: Option<string>,
    displayOrder: int, isActive: bool)

  /** `where = isAdmin ? {} : { isActive: true }` */
  predicate Shown(q: Params, m: TeamMember) {
    ParamIs(q, "admin", "true") || m.isActive
  }

  function ShownBy(q: Params): TeamMember -> bool {
    m => Shown(q, m)
  }

  /** `orderBy: [{ displayOrder: 'asc' }, { createdAt: 'asc' }]` */
  function Order(r: Row<TeamMember>): Key {
    Key(r.data.displayOrder, r.createdAt, 0)
  }

  /** GET /api/team: every shown member, in order. */
  function List(rows: seq<Row<TeamMember>>, q: Params): (r: seq<Row<TeamMember>>)
    ensures |r| == CountWhere(rows, ShownBy(q))
    ensures forall i :: 0 <= i < |r| ==> r[i] in rows && Shown(q, r[i].data)
    ensures forall i :: 0 <= i < |rows| && Shown(q, rows[i].data) ==> rows[i] in r
    ensures forall i, j :: 0 <= i < j < |r| ==> KeyLe(Order(r[i]), Order(r[j]))
    ensures !ParamIs(q, "admin", "true") ==> forall i :: 0 <= i < |r| ==> r[i].data.isActive
  {
    FindMany(rows, ShownBy(q), Order)
  }

  /** The row `prisma.teamMember.create({ data: validatedData })` writes:
      exactly the validated fields; a missing order or active flag takes the
      column default (0 and true). */
  function Stored(v: TeamMemberInput): (m: TeamMember)
    ensures m.name == v.name && m.nameAr == v.nameAr && m.role == v.role && m.roleAr == v.roleAr
    ensures m.bio == v.bio && m.bioAr == v.bioAr && m.image == v.image
    ensures m.linkedin == v.linkedin && m.twitter == v.twitter && m.github == v.github
    ensures v.displayOrder.Some? ==> m.displayOrder == v.displayOrder.value
    ensures v.isActive.Some? ==> m.isActive == v.isActive.value
    ensures v.displayOrder.None? ==> m.displayOrder == 0
    ensures v.isActive.None? ==> m.isActive
  {
    TeamMember(v.name, v.nameAr, v.role, v.roleAr, v.bio, v.bioAr, v.image,
               v.linkedin, v.twitter, v.github, v.displayOrder.GetOr(0), v.isActive.GetOr(true))
  }

  /** POST /api/team: every failure, a refused body included, is a 500. */
  method Create(t: Table<TeamMember>, f: Formats, body: Option<Body>, now: nat) returns (r: Reply<Row<TeamMember>>)
    requires t.Valid()
    modifies t
    ensures t.Valid()
    ensures (body.None? || !Accepts(f, TeamMemberSchema, body.value)) ==>
      r == Fail(SERVER_ERROR, "create failed") && t.rows == old(t.rows)
    ensures body.Some? && Accepts(f, TeamMemberSchema, body.value) ==>
      r.Ok? && r.status == CREATED && r.data.createdAt == now &&
      r.data.data == Stored(TeamMemberOf(body.value)) && t.rows == old(t.rows) + [r.data]
  {
    if body.None? || !Accepts(f, TeamMemberSchema, body.value) {
      return Fail(SERVER_ERROR, "create failed");
    }
    var data := Stored(TeamMemberOf(body.value));
    var id := t.Insert(data, now);
    r := Ok(CREATED, Row(id, now, data));
  }

  /** A member created from an accepted body has a name and a role of two
      characters or more, and social links that are empty or well-formed. */
  lemma CreatedMemberWellFormed(f: Formats, b: Body)
    requires Accepts(f, TeamMemberSchema, b)
    ensures Utf16Length(Stored(TeamMemberOf(b)).name) >= 2 && Utf16Length(Stored(TeamMemberOf(b)).role) >= 2
    ensures Stored(TeamMemberOf(b)).linkedin.Some? ==>
      Stored(TeamMemberOf(b)).linkedin.value == "" || f.isUrl(Stored(TeamMemberOf(b)).linkedin.value)
  {
    TeamMemberLinks(f, b);
  }
}
