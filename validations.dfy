/** The request-body schemas of `src/lib/validations.ts`. Each schema is a
    list of field rules, in declaration order, interpreted as zod interprets
    an object schema: every field is checked, every failed check becomes an
    issue, unknown keys are ignored. Email and URL well-formedness are the
    library's own regular expressions and are parameters here (`Formats`). */
module Validations {
  import opened Common

  /** A JSON value as a field of a request body; `Other` stands for `null`,
      objects and mixed arrays. An absent key is `undefined`. */
  datatype Value = Str(s: string) | Num(n: int) | Bool(b: bool) | Strs(items: seq<string>) | Other

  type Body = map<string, Value>

  /** zod's `.email()` and `.url()` string tests. */
  datatype Formats = Formats(isEmail: string -> bool, isUrl: string -> bool)

  /** A check chained on `z.string()`. */
  datatype Check = MinLen(n: nat) | SlugRegex | Email | Url

  /** A field schema:
      - `Text`: `z.string()` with checks, `.optional()`, `.or(z.literal(''))`;
      - `Choice`: `z.enum([...])`;
      - `Number`: `z.number()` with `.min`/`.max`;
      - `Flag`: `z.boolean()`;
      - `TextList`: `z.array(z.string())` with `.min(n)`. */
  datatype Rule =
    | Text(checks: seq<Check>, optional: bool, orEmpty: bool)
    | Choice(options: seq<string>, optional: bool)
    | Number(min: Option<int>, max: Option<int>, optional: bool)
    | Flag(optional: bool)
    | TextList(minItems: nat, optional: bool)

  datatype Field = Field(name: string, rule: Rule)

  type Schema = seq<Field>

  datatype IssueKind =
    | Required | InvalidType | TooSmall(minimum: int) | TooBig(maximum: int)
    | InvalidEmail | InvalidUrl | InvalidRegex | InvalidEnum | InvalidUnion

  /** One entry of `ZodError.errors`: where and what. */
  datatype Issue = Issue(path: seq<string>, kind: IssueKind)

  // ---------------------------------------------------------------------
  // The interpreter

  /** `/^[a-z0-9-]+$/` */
  predicate SlugShaped(s: string) {
    |s| >= 1 && forall i :: 0 <= i < |s| ==> IsSlugChar(s[i])
  }

  predicate IsSlugChar(c: char) {
    ('a' <= c <= 'z') || ('0' <= c <= '9') || c == '-'
  }

  predicate CheckPasses(f: Formats, c: Check, s: string) {
    match c
    case MinLen(n) => Utf16Length(s) >= n
    case SlugRegex => SlugShaped(s)
    case Email => f.isEmail(s)
    case Url => f.isUrl(s)
  }

  function CheckKind(c: Check): IssueKind {
    match c
    case MinLen(n) => TooSmall(n)
    case SlugRegex => InvalidRegex
    case Email => InvalidEmail
    case Url => InvalidUrl
  }

  /** Every failing check of a string, in chain order. */
  function CheckIssues(f: Formats, path: seq<string>, checks: seq<Check>, s: string): (r: seq<Issue>)
    ensures r == [] <==> forall i :: 0 <= i < |checks| ==> CheckPasses(f, checks[i], s)
    ensures forall i :: 0 <= i < |r| ==> r[i].path == path
  {
    if checks == [] then []
    else
      (if CheckPasses(f, checks[0], s) then [] else [Issue(path, CheckKind(checks[0]))])
      + CheckIssues(f, path, checks[1..], s)
  }

  predicate ChecksPass(f: Formats, checks: seq<Check>, s: string) {
    forall i :: 0 <= i < |checks| ==> CheckPasses(f, checks[i], s)
  }

  lemma ChecksPassOne(f: Formats, c: Check, s: string)
    ensures ChecksPass(f, [c], s) <==> CheckPasses(f, c, s)
  {
    assert [c][0] == c;
  }

  lemma ChecksPassTwo(f: Formats, c: Check, d: Check, s: string)
    ensures ChecksPass(f, [c, d], s) <==> CheckPasses(f, c, s) && CheckPasses(f, d, s)
  {
    assert [c, d][0] == c && [c, d][1] == d;
  }

  function Lookup(b: Body, k: string): (r: Option<Value>)
    ensures r.Some? <==> k in b
    ensures r.Some? ==> r.value == b[k]
  {
    if k in b then Some(b[k]) else None
  }

  /** What a field rule accepts, stated directly: an absent field only when
      it is optional, otherwise a value of the right JSON type that passes
      every check (or, for `.or(z.literal(''))`, is the empty string). */
  predicate RuleAccepts(f: Formats, rule: Rule, v: Option<Value>) {
    if v.None? then rule.optional
    else
      match rule
      case Text(checks, _, orEmpty) =>
        v.value.Str? && ((orEmpty && v.value.s == "") || ChecksPass(f, checks, v.value.s))
      case Choice(options, _) => v.value.Str? && v.value.s in options
      case Number(lo, hi, _) =>
        v.value.Num? && (lo.None? || v.value.n >= lo.value) && (hi.None? || v.value.n <= hi.value)
      case Flag(_) => v.value.Bool?
      case TextList(minItems, _) => v.value.Strs? && |v.value.items| >= minItems
  }

  /** The issues of one field: none exactly when the rule accepts the value. */
  function RuleIssues(f: Formats, path: seq<string>, rule: Rule, v: Option<Value>): (r: seq<Issue>)
    ensures forall i :: 0 <= i < |r| ==> r[i].path == path
    ensures r == [] <==> RuleAccepts(f, rule, v)
  {
    if v.None? then (if rule.optional then [] else [Issue(path, Required)])
    else
      match rule
      case Text(checks, _, orEmpty) =>
        if !v.value.Str? then [Issue(path, if orEmpty then InvalidUnion else InvalidType)]
        else if orEmpty then
          (if v.value.s == "" || ChecksPass(f, checks, v.value.s) then [] else [Issue(path, InvalidUnion)])
        else CheckIssues(f, path, checks, v.value.s)
      case Choice(options, _) =>
        if !v.value.Str? then [Issue(path, InvalidType)]
        else if v.value.s in options then [] else [Issue(path, InvalidEnum)]
      case Number(lo, hi, _) =>
        if !v.value.Num? then [Issue(path, InvalidType)]
        else
          (if lo.Some? && v.value.n < lo.value then [Issue(path, TooSmall(lo.value))] else [])
          + (if hi.Some? && v.value.n > hi.value then [Issue(path, TooBig(hi.value))] else [])
      case Flag(_) =>
        if v.value.Bool? then [] else [Issue(path, InvalidType)]
      case TextList(minItems, _) =>
        if !v.value.Strs? then [Issue(path, InvalidType)]
        else if |v.value.items| < minItems then [Issue(path, TooSmall(minItems))] else []
  }

  function FieldIssues(f: Formats, field: Field, body: Body): (r: seq<Issue>)
    ensures forall i :: 0 <= i < |r| ==> r[i].path == [field.name]
    ensures r == [] <==> RuleAccepts(f, field.rule, Lookup(body, field.name))
  {
    RuleIssues(f, [field.name], field.rule, Lookup(body, field.name))
  }

  /** `schema.safeParse(body)`'s issues: every field's, in schema order. */
  function Validate(f: Formats, schema: Schema, body: Body): (r: seq<Issue>)
    ensures forall i :: 0 <= i < |r| ==> exists k :: 0 <= k < |schema| && r[i].path == [schema[k].name]
  {
    if schema == [] then []
    else
      var head := FieldIssues(f, schema[0], body);
      var tail := Validate(f, schema[1..], body);
      assert forall i :: 0 <= i < |tail| ==> exists k :: 0 <= k < |schema| && tail[i].path == [schema[k].name] by {
        forall i | 0 <= i < |tail|
          ensures exists k :: 0 <= k < |schema| && tail[i].path == [schema[k].name]
        {
          var k :| 0 <= k < |schema[1..]| && tail[i].path == [schema[1..][k].name];
          assert schema[k + 1] == schema[1..][k];
        }
      }
      head + tail
  }

  /** A body is accepted exactly when every field of the schema is. */
  lemma {:induction false} ValidateEmpty(f: Formats, schema: Schema, body: Body)
    ensures Validate(f, schema, body) == [] <==>
      forall k :: 0 <= k < |schema| ==> RuleAccepts(f, schema[k].rule, Lookup(body, schema[k].name))
  {
    if schema != [] {
      ValidateEmpty(f, schema[1..], body);
      assert forall k :: 1 <= k < |schema| ==> schema[k] == schema[1..][k - 1];
    }
  }

  predicate Accepts(f: Formats, schema: Schema, body: Body) {
    Validate(f, schema, body) == []
  }

  // ---------------------------------------------------------------------
  // Reading typed fields out of a body

  predicate IsText(b: Body, k: string) {
    k in b && b[k].Str?
  }

  /** Absent, or present with the right JSON type. */
  predicate OptText(b: Body, k: string) {
    k !in b || b[k].Str?
  }

  predicate OptNum(b: Body, k: string) {
    k !in b || b[k].Num?
  }

  predicate OptFlag(b: Body, k: string) {
    k !in b || b[k].Bool?
  }

  predicate OptList(b: Body, k: string) {
    k !in b || b[k].Strs?
  }

  function TextOf(b: Body, k: string): string {
    if k in b && b[k].Str? then b[k].s else ""
  }

  function OptTextOf(b: Body, k: string): (r: Option<string>)
    ensures r.Some? <==> IsText(b, k)
  {
    if k in b && b[k].Str? then Some(b[k].s) else None
  }

  function OptNumOf(b: Body, k: string): Option<int> {
    if k in b && b[k].Num? then Some(b[k].n) else None
  }

  function OptFlagOf(b: Body, k: string): Option<bool> {
    if k in b && b[k].Bool? then Some(b[k].b) else None
  }

  function OptListOf(b: Body, k: string): Option<seq<string>> {
    if k in b && b[k].Strs? then Some(b[k].items) else None
  }

  /** `field: z.string().url().optional().or(z.literal(''))` */
  predicate UrlOrEmpty(f: Formats, b: Body, k: string) {
    k !in b || (b[k].Str? && (b[k].s == "" || f.isUrl(b[k].s)))
  }

  /** A string field with at least `n` UTF-16 units. */
  predicate LongText(b: Body, k: string, n: nat) {
    IsText(b, k) && Utf16Length(b[k].s) >= n
  }

  // ---------------------------------------------------------------------
  // Contact

  const ContactSchema: Schema := [
    Field("name", Text([MinLen(2)], false, false)),
    Field("email", Text([Email], false, false)),
    Field("phone", Text([], true, false)),
    Field("projectType", Choice(["web", "mobile", "uiux", "other"], false)),
    Field("budget", Text([], true, false)),
    Field("message", Text([MinLen(10)], false, false))
  ]

  /** A contact is accepted iff the name has two characters or more, the
      email is well formed, the project type is one of the four codes and the
      message has ten characters or more; phone and budget only have to be
      strings when present. */
  lemma ContactAcceptance(f: Formats, b: Body)
    ensures Accepts(f, ContactSchema, b) <==>
      LongText(b, "name", 2) &&
      IsText(b, "email") && f.isEmail(b["email"].s) &&
      OptText(b, "phone") &&
      IsText(b, "projectType") && b["projectType"].s in ["web", "mobile", "uiux", "other"] &&
      OptText(b, "budget") &&
      LongText(b, "message", 10)
  {
    ContactFields();
    MinLenField(f, b, "name", 2);
    EmailField(f, b, "email", false);
    PlainTextField(f, b, "phone");
    ChoiceField(f, b, "projectType", ["web", "mobile", "uiux", "other"], false);
    PlainTextField(f, b, "budget");
    MinLenField(f, b, "message", 10);
    if Accepts(f, ContactSchema, b) {
      AcceptedField(f, ContactSchema, b, 0);
      AcceptedField(f, ContactSchema, b, 1);
      AcceptedField(f, ContactSchema, b, 2);
      AcceptedField(f, ContactSchema, b, 3);
      AcceptedField(f, ContactSchema, b, 4);
      AcceptedField(f, ContactSchema, b, 5);
    } else {
      var k := RejectedField(f, ContactSchema, b);
    }
  }

  /** The contact schema's fields by position. */
  lemma ContactFields()
    ensures |ContactSchema| == 6
    ensures ContactSchema[0] == Field("name", Text([MinLen(2)], false, false))
    ensures ContactSchema[1] == Field("email", Text([Email], false, false))
    ensures ContactSchema[2] == Field("phone", Text([], true, false))
    ensures ContactSchema[3] == Field("projectType", Choice(["web", "mobile", "uiux", "other"], false))
    ensures ContactSchema[4] == Field("budget", Text([], true, false))
    ensures ContactSchema[5] == Field("message", Text([MinLen(10)], false, false))
  {
  }

  /** The validated contact (unknown keys are dropped). */
  datatype ContactInput = ContactInput(
    name: string, email: string, phone: Option<string>, projectType: string,
    budget: Option<string>, message: string)

  function ContactOf(b: Body): ContactInput {
    ContactInput(TextOf(b, "name"), TextOf(b, "email"), OptTextOf(b, "phone"),
                 TextOf(b, "projectType"), OptTextOf(b, "budget"), TextOf(b, "message"))
  }

  /** `{ field: path.join('.') || 'unknown', message }` for each issue. */
  datatype FieldError = FieldError(field: string, kind: IssueKind)

  function FieldName(path: seq<string>): (r: string)
    ensures Join(path, ".") == "" ==> r == "unknown"
    ensures Join(path, ".") != "" ==> r == Join(path, ".")
  {
    var joined := Join(path, ".");
    if joined == "" then "unknown" else joined
  }

  function FieldErrors(issues: seq<Issue>): (r: seq<FieldError>)
    ensures |r| == |issues|
    ensures forall i :: 0 <= i < |r| ==> r[i] == FieldError(FieldName(issues[i].path), issues[i].kind)
  {
    if issues == [] then [] else [FieldError(FieldName(issues[0].path), issues[0].kind)] + FieldErrors(issues[1..])
  }

  /** The field names of a schema, in order. */
  function Names(schema: Schema): (r: seq<string>)
    ensures |r| == |schema|
    ensures forall k :: 0 <= k < |schema| ==> r[k] == schema[k].name
  {
    if schema == [] then [] else [schema[0].name] + Names(schema[1..])
  }

  /** With non-empty field names, every error entry names the top-level
      field it is about, never 'unknown'. */
  lemma ErrorFieldsNamed(f: Formats, schema: Schema, b: Body)
    requires forall k :: 0 <= k < |schema| ==> schema[k].name != ""
    ensures forall e :: e in FieldErrors(Validate(f, schema, b)) ==> e.field in Names(schema)
  {
    var issues := Validate(f, schema, b);
    var errs := FieldErrors(issues);
    forall e | e in errs
      ensures e.field in Names(schema)
    {
      var i :| 0 <= i < |errs| && errs[i] == e;
      var k :| 0 <= k < |schema| && issues[i].path == [schema[k].name];
      assert Join([schema[k].name], ".") == schema[k].name;
      assert Names(schema)[k] == e.field;
    }
  }

  /** Each error entry of a rejected contact names one of its six fields. */
  lemma ContactErrorFields(f: Formats, b: Body)
    ensures forall e :: e in FieldErrors(Validate(f, ContactSchema, b)) ==>
      e.field in ["name", "email", "phone", "projectType", "budget", "message"]
  {
    ContactNames();
    ContactFields();
    ErrorFieldsNamed(f, ContactSchema, b);
  }

  lemma ContactNames()
    ensures Names(ContactSchema) == ["name", "email", "phone", "projectType", "budget", "message"]
  {
    ContactFields();
  }

  // ---------------------------------------------------------------------
  // Project

  const ProjectSchema: Schema := [
    Field("title", Text([MinLen(2)], false, false)),
    Field("titleAr", Text([], true, false)),
    Field("slug", Text([MinLen(2), SlugRegex], false, false)),
    Field("description", Text([MinLen(10)], false, false)),
    Field("descriptionAr", Text([], true, false)),
    Field("category", Choice(["Web", "SaaS", "Mobile"], false)),
    Field("technologies", TextList(1, false)),
    Field("clientName", Text([], true, false)),
    Field("completionDate", Text([], true, false)),
    Field("featured", Flag(true)),
    Field("images", TextList(0, true)),
    Field("caseStudyUrl", Text([Url], true, true)),
    Field("liveUrl", Text([Url], true, true)),
    Field("githubUrl", Text([Url], true, true)),
    Field("displayOrder", Number(None, None, true)),
    Field("status", Choice(["draft", "published"], true))
  ]

  /** An accepted body satisfies the rule of the field at position `k`. */
  lemma AcceptedField(f: Formats, schema: Schema, b: Body, k: nat)
    requires Accepts(f, schema, b) && k < |schema|
    ensures RuleAccepts(f, schema[k].rule, Lookup(b, schema[k].name))
  {
    ValidateEmpty(f, schema, b);
  }

  /** A rejected body fails the rule of some field of the schema. */
  lemma RejectedField(f: Formats, schema: Schema, b: Body) returns (k: nat)
    requires !Accepts(f, schema, b)
    ensures k < |schema| && !RuleAccepts(f, schema[k].rule, Lookup(b, schema[k].name))
  {
    ValidateEmpty(f, schema, b);
    k :| 0 <= k < |schema| && !RuleAccepts(f, schema[k].rule, Lookup(b, schema[k].name));
  }

  lemma MinLenField(f: Formats, b: Body, k: string, n: nat)
    ensures RuleAccepts(f, Text([MinLen(n)], false, false), Lookup(b, k)) <==> LongText(b, k, n)
  {
    if k in b && b[k].Str? {
      ChecksPassOne(f, MinLen(n), b[k].s);
    }
  }

  lemma ChoiceField(f: Formats, b: Body, k: string, options: seq<string>, optional: bool)
    ensures RuleAccepts(f, Choice(options, optional), Lookup(b, k)) <==>
      (k !in b && optional) || (k in b && b[k].Str? && b[k].s in options)
  {
  }

  lemma UrlField(f: Formats, b: Body, k: string)
    ensures RuleAccepts(f, Text([Url], true, true), Lookup(b, k)) <==> UrlOrEmpty(f, b, k)
  {
    if k in b && b[k].Str? {
      ChecksPassOne(f, Url, b[k].s);
    }
  }

  lemma EmailField(f: Formats, b: Body, k: string, optional: bool)
    ensures RuleAccepts(f, Text([Email], optional, false), Lookup(b, k)) <==>
      (k !in b && optional) || (k in b && b[k].Str? && f.isEmail(b[k].s))
  {
    if k in b && b[k].Str? {
      ChecksPassOne(f, Email, b[k].s);
    }
  }

  lemma SlugField(f: Formats, b: Body, k: string)
    ensures RuleAccepts(f, Text([MinLen(2), SlugRegex], false, false), Lookup(b, k)) <==>
      LongText(b, k, 2) && SlugShaped(b[k].s)
  {
    if k in b && b[k].Str? {
      ChecksPassTwo(f, MinLen(2), SlugRegex, b[k].s);
    }
  }

  lemma PlainTextField(f: Formats, b: Body, k: string)
    ensures RuleAccepts(f, Text([], true, false), Lookup(b, k)) <==> OptText(b, k)
  {
  }

  lemma ListField(f: Formats, b: Body, k: string, minItems: nat, optional: bool)
    ensures RuleAccepts(f, TextList(minItems, optional), Lookup(b, k)) <==>
      (k !in b && optional) || (k in b && b[k].Strs? && |b[k].items| >= minItems)
  {
  }

  lemma OptionalFields(f: Formats, b: Body, k: string)
    ensures RuleAccepts(f, Flag(true), Lookup(b, k)) <==> OptFlag(b, k)
    ensures RuleAccepts(f, Number(None, None, true), Lookup(b, k)) <==> OptNum(b, k)
  {
  }

  /** The project schema's fields by position. */
  lemma ProjectFieldsA()
    ensures ProjectSchema[0] == Field("title", Text([MinLen(2)], false, false))
    ensures ProjectSchema[1] == Field("titleAr", Text([], true, false))
    ensures ProjectSchema[2] == Field("slug", Text([MinLen(2), SlugRegex], false, false))
    ensures ProjectSchema[3] == Field("description", Text([MinLen(10)], false, false))
  {
  }

  lemma ProjectFieldsB()
    ensures ProjectSchema[4] == Field("descriptionAr", Text([], true, false))
    ensures ProjectSchema[5] == Field("category", Choice(["Web", "SaaS", "Mobile"], false))
    ensures ProjectSchema[6] == Field("technologies", TextList(1, false))
    ensures ProjectSchema[7] == Field("clientName", Text([], true, false))
  {
  }

  lemma ProjectFieldsC()
    ensures ProjectSchema[8] == Field("completionDate", Text([], true, false))
    ensures ProjectSchema[9] == Field("featured", Flag(true))
    ensures ProjectSchema[10] == Field("images", TextList(0, true))
    ensures ProjectSchema[11] == Field("caseStudyUrl", Text([Url], true, true))
  {
  }

  lemma ProjectFieldsD()
    ensures ProjectSchema[12] == Field("liveUrl", Text([Url], true, true))
    ensures ProjectSchema[13] == Field("githubUrl", Text([Url], true, true))
    ensures ProjectSchema[14] == Field("displayOrder", Number(None, None, true))
    ensures ProjectSchema[15] == Field("status", Choice(["draft", "published"], true))
  {
  }

  /** An accepted project has a title, a slug of the form `[a-z0-9-]+` of
      two characters or more, a description, a known category and at least
      one technology. */
  lemma ProjectAcceptedCore(f: Formats, b: Body)
    requires Accepts(f, ProjectSchema, b)
    ensures LongText(b, "title", 2)
    ensures LongText(b, "slug", 2) && SlugShaped(b["slug"].s)
    ensures LongText(b, "description", 10)
    ensures IsText(b, "category") && b["category"].s in ["Web", "SaaS", "Mobile"]
    ensures "technologies" in b && b["technologies"].Strs? && |b["technologies"].items| >= 1
  {
    ProjectFieldsA();
    ProjectFieldsB();
    AcceptedField(f, ProjectSchema, b, 0);
    MinLenField(f, b, "title", 2);
    AcceptedField(f, ProjectSchema, b, 2);
    SlugField(f, b, "slug");
    AcceptedField(f, ProjectSchema, b, 3);
    MinLenField(f, b, "description", 10);
    AcceptedField(f, ProjectSchema, b, 5);
    ChoiceField(f, b, "category", ["Web", "SaaS", "Mobile"], false);
    AcceptedField(f, ProjectSchema, b, 6);
    ListField(f, b, "technologies", 1, false);
  }

  /** The three links of an accepted project are absent, empty or URLs. */
  lemma ProjectAcceptedLinks(f: Formats, b: Body)
    requires Accepts(f, ProjectSchema, b)
    ensures UrlOrEmpty(f, b, "caseStudyUrl") && UrlOrEmpty(f, b, "liveUrl") && UrlOrEmpty(f, b, "githubUrl")
  {
    ProjectFieldsC();
    ProjectFieldsD();
    AcceptedField(f, ProjectSchema, b, 11);
    UrlField(f, b, "caseStudyUrl");
    AcceptedField(f, ProjectSchema, b, 12);
    UrlField(f, b, "liveUrl");
    AcceptedField(f, ProjectSchema, b, 13);
    UrlField(f, b, "githubUrl");
  }

  /** The optional fields of an accepted project have their declared types,
      and its status, when given, is 'draft' or 'published'. */
  lemma ProjectAcceptedOptional(f: Formats, b: Body)
    requires Accepts(f, ProjectSchema, b)
    ensures OptText(b, "titleAr") && OptText(b, "descriptionAr")
    ensures OptText(b, "clientName") && OptText(b, "completionDate")
    ensures OptFlag(b, "featured") && OptList(b, "images") && OptNum(b, "displayOrder")
    ensures "status" !in b || (b["status"].Str? && b["status"].s in ["draft", "published"])
  {
    ProjectFieldsA();
    ProjectFieldsB();
    ProjectFieldsC();
    ProjectFieldsD();
    AcceptedField(f, ProjectSchema, b, 1);
    PlainTextField(f, b, "titleAr");
    AcceptedField(f, ProjectSchema, b, 4);
    PlainTextField(f, b, "descriptionAr");
    AcceptedField(f, ProjectSchema, b, 7);
    PlainTextField(f, b, "clientName");
    AcceptedField(f, ProjectSchema, b, 8);
    PlainTextField(f, b, "completionDate");
    AcceptedField(f, ProjectSchema, b, 9);
    OptionalFields(f, b, "featured");
    AcceptedField(f, ProjectSchema, b, 10);
    ListField(f, b, "images", 0, true);
    AcceptedField(f, ProjectSchema, b, 14);
    OptionalFields(f, b, "displayOrder");
    AcceptedField(f, ProjectSchema, b, 15);
    ChoiceField(f, b, "status", ["draft", "published"], true);
  }

  /** A body that breaks any one project field rule is refused whatever else
      it holds: a short or ill-formed slug, an unknown category, an empty
      technology list, a non-empty link that is not a URL. */
  lemma ProjectRefused(f: Formats, b: Body)
    requires
      !(LongText(b, "slug", 2) && SlugShaped(b["slug"].s)) ||
      !(IsText(b, "category") && b["category"].s in ["Web", "SaaS", "Mobile"]) ||
      !("technologies" in b && b["technologies"].Strs? && |b["technologies"].items| >= 1) ||
      !UrlOrEmpty(f, b, "caseStudyUrl") || !UrlOrEmpty(f, b, "liveUrl") || !UrlOrEmpty(f, b, "githubUrl")
    ensures !Accepts(f, ProjectSchema, b)
  {
    if Accepts(f, ProjectSchema, b) {
      ProjectAcceptedCore(f, b);
      ProjectAcceptedLinks(f, b);
    }
  }

  datatype ProjectInput = ProjectInput(
    title: string, titleAr: Option<string>, slug: string, description: string,
    descriptionAr: Option<string>, category: string, technologies: seq<string>,
    clientName: Option<string>, completionDate: Option<string>, featured: Option<bool>,
    images: Option<seq<string>>, caseStudyUrl: Option<string>, liveUrl: Option<string>,
    githubUrl: Option<string>, displayOrder: Option<int>, status: Option<string>)

  function ProjectOf(b: Body): ProjectInput {
    ProjectInput(
      TextOf(b, "title"), OptTextOf(b, "titleAr"), TextOf(b, "slug"), TextOf(b, "description"),
      OptTextOf(b, "descriptionAr"), TextOf(b, "category"), OptListOf(b, "technologies").GetOr([]),
      OptTextOf(b, "clientName"), OptTextOf(b, "completionDate"), OptFlagOf(b, "featured"),
      OptListOf(b, "images"), OptTextOf(b, "caseStudyUrl"), OptTextOf(b, "liveUrl"),
      OptTextOf(b, "githubUrl"), OptNumOf(b, "displayOrder"), OptTextOf(b, "status"))
  }

  // ---------------------------------------------------------------------
  // Testimonial

  const TestimonialSchema: Schema := [
    Field("quote", Text([MinLen(10)], false, false)),
    Field("quoteAr", Text([], true, false)),
    Field("authorName", Text([MinLen(2)], false, false)),
    Field("authorRole", Text([], true, false)),
    Field("authorRoleAr", Text([], true, false)),
    Field("authorCompany", Text([], true, false)),
    Field("authorImage", Text([], true, false)),
    Field("rating", Number(Some(1), Some(5), true)),
    Field("featured", Flag(true)),
    Field("approved", Flag(true)),
    Field("displayOrder", Number(None, None, true))
  ]

  /** An accepted testimonial's rating, when given, lies in 1..5; and a
      rating outside that range is refused. */
  lemma TestimonialRating(f: Formats, b: Body)
    ensures Accepts(f, TestimonialSchema, b) && "rating" in b ==> b["rating"].Num? && 1 <= b["rating"].n <= 5
    ensures "rating" in b && b["rating"].Num? && !(1 <= b["rating"].n <= 5) ==> !Accepts(f, TestimonialSchema, b)
  {
    ValidateEmpty(f, TestimonialSchema, b);
    assert TestimonialSchema[7] == Field("rating", Number(Some(1), Some(5), true));
  }

  datatype TestimonialInput = TestimonialInput(
    quote: string, quoteAr: Option<string>, authorName: string, authorRole: Option<string>,
    authorRoleAr: Option<string>, authorCompany: Option<string>, authorImage: Option<string>,
    rating: Option<int>, featured: Option<bool>, approved: Option<bool>, displayOrder: Option<int>)

  function TestimonialOf(b: Body): TestimonialInput {
    TestimonialInput(
      TextOf(b, "quote"), OptTextOf(b, "quoteAr"), TextOf(b, "authorName"), OptTextOf(b, "authorRole"),
      OptTextOf(b, "authorRoleAr"), OptTextOf(b, "authorCompany"), OptTextOf(b, "authorImage"),
      OptNumOf(b, "rating"), OptFlagOf(b, "featured"), OptFlagOf(b, "approved"), OptNumOf(b, "displayOrder"))
  }

  // ---------------------------------------------------------------------
  // Team member

  const TeamMemberSchema: Schema := [
    Field("name", Text([MinLen(2)], false, false)),
    Field("nameAr", Text([], true, false)),
    Field("role", Text([MinLen(2)], false, false)),
    Field("roleAr", Text([], true, false)),
    Field("bio", Text([], true, false)),
    Field("bioAr", Text([], true, false)),
    Field("image", Text([], true, false)),
    Field("linkedin", Text([Url], true, true)),
    Field("twitter", Text([Url], true, true)),
    Field("github", Text([Url], true, true)),
    Field("displayOrder", Number(None, None, true)),
    Field("isActive", Flag(true))
  ]

  /** The social links of an accepted team member are each absent, empty or
      a well-formed URL. */
  lemma TeamMemberLinks(f: Formats, b: Body)
    ensures Accepts(f, TeamMemberSchema, b) ==>
      UrlOrEmpty(f, b, "linkedin") && UrlOrEmpty(f, b, "twitter") && UrlOrEmpty(f, b, "github")
    ensures Accepts(f, TeamMemberSchema, b) ==> LongText(b, "name", 2) && LongText(b, "role", 2)
  {
    if Accepts(f, TeamMemberSchema, b) {
      TeamMemberFields();
      AcceptedField(f, TeamMemberSchema, b, 0);
      MinLenField(f, b, "name", 2);
      AcceptedField(f, TeamMemberSchema, b, 2);
      MinLenField(f, b, "role", 2);
      AcceptedField(f, TeamMemberSchema, b, 7);
      UrlField(f, b, "linkedin");
      AcceptedField(f, TeamMemberSchema, b, 8);
      UrlField(f, b, "twitter");
      AcceptedField(f, TeamMemberSchema, b, 9);
      UrlField(f, b, "github");
    }
  }

  /** The team-member schema's name, role and link fields by position. */
  lemma TeamMemberFields()
    ensures TeamMemberSchema[0] == Field("name", Text([MinLen(2)], false, false))
    ensures TeamMemberSchema[2] == Field("role", Text([MinLen(2)], false, false))
    ensures TeamMemberSchema[7] == Field("linkedin", Text([Url], true, true))
    ensures TeamMemberSchema[8] == Field("twitter", Text([Url], true, true))
    ensures TeamMemberSchema[9] == Field("github", Text([Url], true, true))
  {
  }

  datatype TeamMemberInput = TeamMemberInput(
    name: string, nameAr: Option<string>, role: string, roleAr: Option<string>,
    bio: Option<string>, bioAr: Option<string>, image: Option<string>,
    linkedin: Option<string>, twitter: Option<string>, github: Option<string>,
    displayOrder: Option<int>, isActive: Option<bool>)

  function TeamMemberOf(b: Body): TeamMemberInput {
    TeamMemberInput(
      TextOf(b, "name"), OptTextOf(b, "nameAr"), TextOf(b, "role"), OptTextOf(b, "roleAr"),
      OptTextOf(b, "bio"), OptTextOf(b, "bioAr"), OptTextOf(b, "image"),
      OptTextOf(b, "linkedin"), OptTextOf(b, "twitter"), OptTextOf(b, "github"),
      OptNumOf(b, "displayOrder"), OptFlagOf(b, "isActive"))
  }

  // ---------------------------------------------------------------------
  // Service

  const ServiceSchema: Schema := [
    Field("title", Text([MinLen(2)], false, false)),
    Field("titleAr", Text([], true, false)),
    Field("slug", Text([MinLen(2)], false, false)),
    Field("shortDescription", Text([MinLen(10)], false, false)),
    Field("shortDescAr", Text([], true, false)),
    Field("fullDescription", Text([], true, false)),
    Field("fullDescAr", Text([], true, false)),
    Field("icon", Text([], true, false)),
    Field("features", TextList(0, true)),
    Field("featuresAr", TextList(0, true)),
    Field("pricingFrom", Number(None, None, true)),
    Field("displayOrder", Number(None, None, true)),
    Field("isActive", Flag(true))
  ]

  /** A service slug only has to be two characters long: unlike a project
      slug, any characters pass. */
  lemma ServiceSlugUnrestricted(f: Formats, b: Body)
    ensures FieldIssues(f, ServiceSchema[2], b) == [] <==> LongText(b, "slug", 2)
    ensures IsText(b, "slug") && b["slug"].s == "A b" ==>
      FieldIssues(f, ServiceSchema[2], b) == [] && FieldIssues(f, ProjectSchema[2], b) != []
  {
    ServiceSlugField();
    ProjectFieldsA();
    MinLenField(f, b, "slug", 2);
    if IsText(b, "slug") && b["slug"].s == "A b" {
      assert Utf16Length("A b") == 3;
      assert !IsSlugChar("A b"[0]);
      SlugField(f, b, "slug");
    }
  }

  lemma ServiceSlugField()
    ensures ServiceSchema[2] == Field("slug", Text([MinLen(2)], false, false))
  {
  }

  datatype ServiceInput = ServiceInput(
    title: string, titleAr: Option<string>, slug: string, shortDescription: string,
    shortDescAr: Option<string>, fullDescription: Option<string>, fullDescAr: Option<string>,
    icon: Option<string>, features: Option<seq<string>>, featuresAr: Option<seq<string>>,
    pricingFrom: Option<int>, displayOrder: Option<int>, isActive: Option<bool>)

  function ServiceOf(b: Body): ServiceInput {
    ServiceInput(
      TextOf(b, "title"), OptTextOf(b, "titleAr"), TextOf(b, "slug"), TextOf(b, "shortDescription"),
      OptTextOf(b, "shortDescAr"), OptTextOf(b, "fullDescription"), OptTextOf(b, "fullDescAr"),
      OptTextOf(b, "icon"), OptListOf(b, "features"), OptListOf(b, "featuresAr"),
      OptNumOf(b, "pricingFrom"), OptNumOf(b, "displayOrder"), OptFlagOf(b, "isActive"))
  }

  // ---------------------------------------------------------------------
  // Blog post

  const BlogPostSchema: Schema := [
    Field("title", Text([MinLen(2)], false, false)),
    Field("titleAr", Text([], true, false)),
    Field("slug", Text([MinLen(2)], false, false)),
    Field("excerpt", Text([], true, false)),
    Field("excerptAr", Text([], true, false)),
    Field("content", Text([MinLen(50)], false, false)),
    Field("contentAr", Text([], true, false)),
    Field("coverImage", Text([], true, false)),
    Field("category", Text([], true, false)),
    Field("tags", TextList(0, true)),
    Field("status", Choice(["draft", "published"], true)),
    Field("publishedAt", Text([], true, false))
  ]

  /** Project and blog-post status, when given, is 'draft' or 'published';
      a blog post needs fifty characters of content. */
  lemma StatusChoice(f: Formats, b: Body)
    ensures Accepts(f, ProjectSchema, b) && "status" in b ==> b["status"].Str? && b["status"].s in ["draft", "published"]
    ensures Accepts(f, BlogPostSchema, b) && "status" in b ==> b["status"].Str? && b["status"].s in ["draft", "published"]
    ensures Accepts(f, BlogPostSchema, b) ==> LongText(b, "content", 50)
  {
    if Accepts(f, ProjectSchema, b) {
      ProjectFieldsD();
      AcceptedField(f, ProjectSchema, b, 15);
      ChoiceField(f, b, "status", ["draft", "published"], true);
    }
    if Accepts(f, BlogPostSchema, b) {
      BlogPostFieldsAt();
      AcceptedField(f, BlogPostSchema, b, 10);
      ChoiceField(f, b, "status", ["draft", "published"], true);
      AcceptedField(f, BlogPostSchema, b, 5);
      MinLenField(f, b, "content", 50);
    }
  }

  lemma BlogPostFieldsAt()
    ensures BlogPostSchema[5] == Field("content", Text([MinLen(50)], false, false))
    ensures BlogPostSchema[10] == Field("status", Choice(["draft", "published"], true))
  {
  }

  // ---------------------------------------------------------------------
  // Quiz result and newsletter

  const QuizResultSchema: Schema := [
    Field("quizType", Choice(["business", "developer"], false)),
    Field("score", Number(None, None, false)),
    Field("answers", TextList(0, false)),
    Field("result", Text([], true, false)),
    Field("userEmail", Text([Email], true, false))
  ]

  /** A quiz result is accepted iff its type is 'business' or 'developer',
      the score is a number, the answers a list of strings, the result a
      string if given and the email well formed if given. */
  lemma QuizResultAcceptance(f: Formats, b: Body)
    ensures Accepts(f, QuizResultSchema, b) <==>
      IsText(b, "quizType") && b["quizType"].s in ["business", "developer"] &&
      "score" in b && b["score"].Num? &&
      "answers" in b && b["answers"].Strs? &&
      OptText(b, "result") &&
      ("userEmail" !in b || (b["userEmail"].Str? && f.isEmail(b["userEmail"].s)))
  {
    QuizResultFields();
    ChoiceField(f, b, "quizType", ["business", "developer"], false);
    EmailField(f, b, "userEmail", true);
    PlainTextField(f, b, "result");
    if Accepts(f, QuizResultSchema, b) {
      AcceptedField(f, QuizResultSchema, b, 0);
      AcceptedField(f, QuizResultSchema, b, 1);
      AcceptedField(f, QuizResultSchema, b, 2);
      AcceptedField(f, QuizResultSchema, b, 3);
      AcceptedField(f, QuizResultSchema, b, 4);
    } else {
      var k := RejectedField(f, QuizResultSchema, b);
    }
  }

  /** The quiz-result schema's fields by position. */
  lemma QuizResultFields()
    ensures |QuizResultSchema| == 5
    ensures QuizResultSchema[0] == Field("quizType", Choice(["business", "developer"], false))
    ensures QuizResultSchema[1] == Field("score", Number(None, None, false))
    ensures QuizResultSchema[2] == Field("answers", TextList(0, false))
    ensures QuizResultSchema[3] == Field("result", Text([], true, false))
    ensures QuizResultSchema[4] == Field("userEmail", Text([Email], true, false))
  {
  }

  datatype QuizResultInput = QuizResultInput(
    quizType: string, score: int, answers: seq<string>, result: Option<string>, userEmail: Option<string>)

  function QuizResultOf(b: Body): QuizResultInput {
    QuizResultInput(TextOf(b, "quizType"), OptNumOf(b, "score").GetOr(0), OptListOf(b, "answers").GetOr([]),
                    OptTextOf(b, "result"), OptTextOf(b, "userEmail"))
  }

  const NewsletterSchema: Schema := [
    Field("email", Text([Email], false, false))
  ]

  lemma NewsletterAcceptance(f: Formats, b: Body)
    ensures Accepts(f, NewsletterSchema, b) <==> IsText(b, "email") && f.isEmail(b["email"].s)
  {
    ValidateEmpty(f, NewsletterSchema, b);
    ChecksPassOne(f, Email, TextOf(b, "email"));
    assert RuleAccepts(f, NewsletterSchema[0].rule, Lookup(b, NewsletterSchema[0].name)) <==> Accepts(f, NewsletterSchema, b);
  }
}
