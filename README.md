# Lumina content system, modelled in Dafny

Lumina is a bilingual (English and Arabic) agency web site built with
Next.js. Its content lives in database tables served by JSON API routes
under `src/app/api/`: projects, services, testimonials, team members,
contact messages, newsletter subscribers, quiz results, site statistics,
settings, categories, pages, menus and menu items, pricing plans,
partners, FAQ entries and social links. The routes check request bodies
with the zod schemas of `src/lib/validations.ts`. Administrators sign in
through next-auth (`src/lib/auth.ts`), and `src/middleware.ts` guards the
`/admin` pages. The admin panel edits the content, and the public
sections render it in either language, falling back to built-in texts.
A separate developer tool under `mcp-server/` inspects the source tree.
It lists pages and components, checks imports against `package.json`,
draws the project tree, finds unused components and compares
translation key counts.

This project models that core and proves what it promises.

- **Tables.** Each database table is a `Store.Table<T>` object. Its rows
  carry an id, a creation time and the record.
- **Reads.** A GET handler is a function of the rows and the query
  parameters. Filtering, ordering and paging are stated against
  `Listing.FindMany` and `Paging.Page`.
- **Writes.** A POST, PUT or PATCH handler is a method that modifies the
  table. Its `ensures` gives the reply and the new rows for every branch:
  refused, invalid, conflict, created or updated.
- **Oracles.** The session, the password hash check, and the e-mail and
  URL syntax checks are parameters. So are database failures.
- **Pages and components.** Admin pages and public components with
  internal state are classes whose methods are their event handlers.
  Pure mappings are functions.
- **Developer tool.** Its directory walks, import scans and tree drawing
  are methods, each proved equal to a recursive specification. The
  properties are proved about that specification.

Modules follow the source files. The shared modules are:

- `Common`: options and JavaScript string helpers.
- `Seqs`: filter, count, ordering, removal of repeats.
- `Paging`: `skip`/`take` and page counts.
- `Http`: query parameters, sessions, replies.
- `Store` and `Listing`: tables and `findMany`.
- `JsonArray`: the JSON string-array columns.
- `Validations`: the zod schemas.
- `Keyed`: the key-indexed settings and statistics.

## Model

| member | source | states |
|---|---|---|
| Common.Utf16Length | src/lib/validations.ts:5 | `.min(n)` counts UTF-16 code units: a string of k characters has between k and 2k of them |
| Common.TrimStart | src/app/admin/portfolio/page.tsx:121 | the start of `trim()`: a suffix of the input whose first character is not white space |
| Common.TrimEnd | src/app/admin/portfolio/page.tsx:121 | the end of `trim()`: a prefix of the input whose last character is not white space |
| Common.Trim | src/app/admin/portfolio/page.tsx:121-124 | `trim()` leaves text without white space unchanged |
| Common.IndexOfChar | mcp-server/src/index.ts:378-379 | the first position of the separator that `split` cuts at, or the length when it is absent |
| Common.Split | mcp-server/src/index.ts:378-379 | `split(c)` yields at least one piece and no piece contains the separator |
| Common.DigitPrefix | src/app/api/portfolio/route.ts:12-13 | the digits `parseInt` reads: the longest all-digit prefix, stopped by a non-digit |
| Common.ParseInt | src/app/api/portfolio/route.ts:12-13 | `parseInt` without a radix gives a number exactly when, after white space and one sign, at least one digit follows, hexadecimal after `0x`/`0X` and decimal otherwise (NaN otherwise); the number is the signed value of those digits in that base |
| Common.HexNumeral | src/app/api/portfolio/route.ts:12 | `?page=0x10` is read as page 16 |
| Common.HexWithoutDigits | src/app/api/portfolio/route.ts:12 | `0x` followed by no hexadecimal digit is NaN |
| Http.Param | src/app/api/portfolio/route.ts:9-11 | `searchParams.get(name)` is present exactly when the parameter is, with its value |
| Http.ClientIp | src/app/api/contact/route.ts:69-71 | the client address is `x-forwarded-for` when non-empty, else `x-real-ip` when non-empty, else 'unknown'; never empty |
| Http.ClientAgent | src/app/api/contact/route.ts:72 | the user agent is the header when non-empty, else 'unknown'; never empty |
| Paging.NatToString | src/app/api/portfolio/route.ts:12-13 | the decimal text of the default page and limit: non-empty and all digits |
| Paging.ParseNatToString | src/app/api/portfolio/route.ts:12-13 | `parseInt` of a default such as '1' or '20' gives back that number |
| Paging.PageArgsOf | src/app/api/portfolio/route.ts:12-14 | without `page` and `limit` parameters the page is 1 and the limit the route's default; an accepted pair is positive |
| Paging.TotalPages | src/app/api/portfolio/route.ts:57 | `Math.ceil(total / limit)`: the fewest pages of `limit` rows that hold `total` rows; zero exactly when there are no rows |
| Paging.PageStart | src/app/api/portfolio/route.ts:14 | `skip = (page - 1) * limit`, capped at the end of the list |
| Paging.PageEnd | src/app/api/portfolio/route.ts:37-38 | `skip + take`, capped at the end; a page spans at most `limit` rows |
| Paging.Page | src/app/api/portfolio/route.ts:37-38 | `skip`/`take`: exactly the rows from `(page-1)*limit` up to `page*limit` or the end, and none past the end |
| Paging.PagesRoundTrip | src/app/api/portfolio/route.ts:53-58 | pages 1 to `totalPages` together hold every listed row once, in order, and there are exactly `totalPages` of them |
| Paging.PageShift | src/app/api/portfolio/route.ts:14 | page p of a list is page p-1 of the list without its first `limit` rows |
| Seqs.FilterMembers | src/app/api/portfolio/route.ts:17-27 | a `where` filter keeps exactly the rows that satisfy it |
| Seqs.FilterAppend | mcp-server/analyze.js:71-84 | filtering a concatenation is the concatenation of the filtered parts (used to prove the loops that append as they go) |
| Seqs.FilterKeepsOrder | mcp-server/src/index.ts:309 | a filtered list keeps the original order (a subsequence) |
| Seqs.SortByKey | src/app/api/portfolio/route.ts:32-36 | `orderBy`: the result is ordered by the key and is a permutation of the input |
| Seqs.Take | src/app/api/quiz/route.ts:14-18 | `take: n`: the first n rows, or all when there are fewer |
| Store.Table.constructor | src/app/api/portfolio/route.ts:90 | a new table is empty and valid (ids unique and increasing) |
| Store.Table.Insert | src/app/api/portfolio/route.ts:90-109 | `create` appends one row whose id no earlier row has, and keeps the ids unique |
| Store.Table.Replace | src/app/api/menu-items/route.ts:55-61 | `update` of one row changes only that row's data; ids and creation times stay |
| Store.IndexOfId | src/app/api/menu-items/route.ts:56 | the row with the given id, or the end when no row has it |
| Listing.FindMany | src/app/api/portfolio/route.ts:29-41 | `findMany({ where, orderBy })`: exactly the rows that match, each once, in key order; as many as `count({ where })` |
| Listing.CountMonotone | src/app/api/portfolio/route.ts:40 | a stricter `where` never counts more rows |
| Listing.ListedPage | src/app/api/portfolio/route.ts:29-39 | a page of a listing is ordered, no longer than the page size, and holds only table rows that meet the condition |
| JsonArray.EscapeChar | src/app/api/portfolio/route.ts:98 | the escape `JSON.stringify` writes for one character: never a bare quote or control character |
| JsonArray.Encode | src/app/api/portfolio/route.ts:98 | `JSON.stringify(list)` is bracketed text |
| JsonArray.Unescape | src/app/api/portfolio/route.ts:46 | a backslash escape read by `JSON.parse` uses at least one character of the input |
| JsonArray.ParseString | src/app/api/portfolio/route.ts:46 | reading a string value always consumes input |
| JsonArray.Decode | src/app/api/portfolio/route.ts:46 | `JSON.parse` accepts only bracketed text as a list of strings |
| JsonArray.StringRoundTrip | src/app/api/portfolio/route.ts:46-47 | a string written by `JSON.stringify` reads back as itself, whatever follows it |
| JsonArray.ItemsRoundTrip | src/app/api/portfolio/route.ts:46-47 | a non-empty written list reads back element for element |
| JsonArray.RoundTrip | src/app/api/portfolio/route.ts:46-47 | `JSON.parse(JSON.stringify(list))` is the list |
| JsonArray.DecodeColumn | src/app/api/portfolio/route.ts:46-47 | `col ? JSON.parse(col) : []`: a null or empty column reads as the empty list |
| JsonArray.EncodeColumn | src/app/api/portfolio/route.ts:102 | `list ? JSON.stringify(list) : null`: a stored list is never the empty text |
| JsonArray.ColumnRoundTrip | src/app/api/portfolio/route.ts:98-102 | a column written from a list reads back as that list, and one written as null as the empty list |
| Keyed.CollectLookup | src/app/api/settings/route.ts:32-43 | the object built by `reduce` has an entry for exactly the keys of the rows, and with unique keys each entry is its row's value |
| Keyed.FindKey | src/app/api/settings/route.ts:68-69 | the row with the key, or the end when there is none |
| Keyed.Upsert | src/app/api/settings/route.ts:68-91 | `upsert`: the row with the key is updated, or a row is created when there is none; keys stay unique |
| Keyed.UpsertCollect | src/app/api/stats/route.ts:43-47 | after an upsert, the key-indexed object differs from before in the entry for that key only |
| Keyed.FilterUnique | src/app/api/settings/route.ts:26-29 | a filtered table keeps its keys unique |
| Validations.CheckIssues | src/lib/validations.ts:5-10 | a string field raises no issue exactly when every check of its chain passes; each issue names the field |
| Validations.RuleIssues | src/lib/validations.ts:4-11 | a field raises no issue exactly when its rule (type, optional, `.or(z.literal(''))`, checks) accepts the value |
| Validations.FieldIssues | src/lib/validations.ts:4-11 | the issues of one field of the body, all naming that field |
| Validations.Validate | src/lib/validations.ts:4-11 | `safeParse`: the issues of every field in schema order, each naming a schema field |
| Validations.ValidateEmpty | src/lib/validations.ts:4-11 | a body is accepted exactly when every field of the schema accepts its value |
| Validations.OptTextOf | src/lib/validations.ts:7 | an optional string field is read exactly when present as a string |
| Validations.ContactAcceptance | src/lib/validations.ts:4-11 | a contact is accepted iff name has 2+ units, the email is well formed, projectType is one of the four, message has 10+ units and phone/budget are strings when present |
| Validations.FieldName | src/app/api/contact/route.ts:57 | `path.join('.') \|\| 'unknown'` |
| Validations.FieldErrors | src/app/api/contact/route.ts:55-59 | one error entry per issue, in order, naming its field |
| Validations.ErrorFieldsNamed | src/app/api/contact/route.ts:55-59 | with non-empty field names no error entry says 'unknown': each names a schema field |
| Validations.ContactErrorFields | src/app/api/contact/route.ts:55-59 | every error of a refused contact names one of its six fields |
| Validations.AcceptedField | src/lib/validations.ts:14-31 | an accepted body satisfies the rule of every field of the schema |
| Validations.ProjectAcceptedCore | src/lib/validations.ts:15-21 | an accepted project has a title, a `[a-z0-9-]+` slug of 2+ units, a 10+ unit description, one of the three categories and one technology or more |
| Validations.ProjectAcceptedLinks | src/lib/validations.ts:26-28 | the three links of an accepted project are absent, empty or URLs |
| Validations.ProjectAcceptedOptional | src/lib/validations.ts:16-30 | the optional project fields have their declared types; the status is 'draft' or 'published' |
| Validations.ProjectRefused | src/lib/validations.ts:14-31 | a short title, a slug outside `[a-z0-9-]`, no technology or a non-URL link makes the project refused |
| Validations.TestimonialRating | src/lib/validations.ts:42 | an accepted rating lies in 1..5 and a rating outside it is refused |
| Validations.TeamMemberLinks | src/lib/validations.ts:50-59 | an accepted team member has a name and role of 2+ units and links that are absent, empty or URLs |
| Validations.ServiceSlugUnrestricted | src/lib/validations.ts:68 | a service slug needs only 2 units: 'A b' passes, unlike a project slug |
| Validations.StatusChoice | src/lib/validations.ts:30 | project and blog-post status is 'draft' or 'published'; a blog post needs 50 units of content |
| Validations.QuizResultAcceptance | src/lib/validations.ts:98-104 | a quiz result is accepted iff quizType is one of the two, score a number, answers a string list, and result/userEmail well typed when given |
| Validations.NewsletterAcceptance | src/lib/validations.ts:107-109 | a subscription is accepted iff the email is a well-formed string |
| Seqs.Filter | src/app/api/portfolio/route.ts:17-27 | a `where` filter keeps only rows that satisfy it, never more rows than there were |
| Seqs.FilterFilter | src/app/api/partners/route.ts:15-27 | two `where` conditions applied one after the other select what their conjunction selects |
| Seqs.CountExtremes | src/app/admin/page.tsx:46-54 | a count of matching items is at most the list's length, equals it exactly when all match, and is 0 exactly when none does |
| Seqs.InsertByKey | src/app/api/portfolio/route.ts:32-36 | inserting one row into an ordered list keeps it ordered and adds exactly that row |
| Seqs.SortedMember | src/app/api/portfolio/route.ts:32-36 | ordering neither adds nor loses a row |
| Seqs.SliceOfSorted | src/app/api/portfolio/route.ts:32-38 | a page cut from an ordered list is ordered and holds only rows of the list |
| Seqs.FirstIndex | src/components/PortfolioSection.tsx:44 | the position of a value's first occurrence, a position that holds the value |
| Seqs.FirstIndexFirst | src/components/PortfolioSection.tsx:44 | no position before the first occurrence holds the value |
| Seqs.DedupAfter | src/components/PortfolioSection.tsx:44 | `new Set(...)` keeps every value not already seen, each exactly once |
| Seqs.DedupOrdered | src/components/PortfolioSection.tsx:44 | `new Set(...)` keeps its values in the order of their first insertion |
| Seqs.DedupAppend | src/components/PortfolioSection.tsx:44 | inserting two runs into a set is inserting the second run after the first, with the first run's values already present |
| Seqs.AddToSet | mcp-server/src/index.ts:380 | `set.add(x)` appends `x` exactly when it is not yet present, keeping insertion order |
| Common.HexDigit | src/app/api/portfolio/route.ts:46 | a hexadecimal digit, of a `0x` number or a `\u` escape, is worth less than 16 |
| JsonArray.ParseItems | src/app/api/portfolio/route.ts:46 | reading the elements of a list always consumes input |
| JsonArray.QuoteRoundTrip | src/app/api/portfolio/route.ts:46-47 | a quoted value followed by any text reads back as the value and that text |
| Settings.Get | src/app/api/settings/route.ts:10-45 | the object has an entry for exactly the keys of the selected settings (group, `public=true`), each the view of its row; with `public=true` every entry is public |
| Settings.SelectedSettings | src/app/api/settings/route.ts:28-38 | the reduced object has an entry for exactly the keys of the selected rows, each the view of its own row |
| Settings.Created | src/app/api/settings/route.ts:80-90 | the created setting has the key and given values, type `\|\| 'string'`, group `\|\| 'general'`, `isPublic ?? false` |
| Settings.Updated | src/app/api/settings/route.ts:70-79 | the update keeps the key, overwrites the defaulted members, and leaves a column whose member is undefined as it was |
| Settings.PutOne | src/app/api/settings/route.ts:68-91 | one upsert: the key-indexed settings change at that key only, to the created or updated setting |
| Settings.PutEach | src/app/api/settings/route.ts:67-94 | every entry is attempted in turn; the stored settings are those of the upserts that succeed, and the run fails iff some key's upsert is refused |
| Settings.Put | src/app/api/settings/route.ts:56-96 | non-admins get 401 with nothing written; a body that is not JSON is a 500 with nothing written; otherwise every entry is upserted and the reply is 500 iff one upsert failed |
| Settings.PutMeaning | src/app/api/settings/route.ts:67-94 | with distinct keys, each successfully upserted key holds its upserted setting and every key not in the body is unchanged |
| Stats.StatsObject | src/app/api/stats/route.ts:10-13 | the `reduce` loop builds exactly the key-indexed object of the rows (last row wins) |
| Stats.Get | src/app/api/stats/route.ts:7-27 | the four defaults are always present, every stored key shows its stored value, a default shows only when its key is not stored, and no other key appears |
| Stats.Patch | src/app/api/stats/route.ts:38-55 | a body that is not JSON is a 500 with nothing written; otherwise the stored figures are the successful upserts applied in order, and the reply is 200 iff every entry was applied |
| Stats.PatchOne | src/app/api/stats/route.ts:43-47 | one upsert: the figure under that key becomes the new value and no other figure changes |
| Stats.PatchEach | src/app/api/stats/route.ts:42-48 | every entry is upserted in turn; the stored figures are the successful upserts applied in order, and the run fails iff some entry was not applied; an empty body writes nothing |
| Stats.PatchedMeaning | src/app/api/stats/route.ts:42-48 | with distinct keys, each applied key holds its new value and every key not in the body keeps its value |
| Stats.ShownAfterPatch | src/app/api/stats/route.ts:16-22 | after a PATCH, GET shows each applied key with its new value over the default |
| Portfolio.OrderMeaning | src/app/api/portfolio/route.ts:32-36 | the list order: featured first, then ascending display order, then newest first |
| Portfolio.Views | src/app/api/portfolio/route.ts:44-48 | every row with its technologies and images parsed; the mapping fails exactly when some row holds a column the column reader rejects |
| Portfolio.List | src/app/api/portfolio/route.ts:6-59 | succeeds exactly when every project of the requested page (the `skip`/`take` window of the matching projects in list order) has readable columns, and then answers the views of exactly that page: at most `limit` matching projects in list order, with `total` the count of all matching rows and `totalPages` its ceiling; public callers see published projects only; otherwise 500 |
| Portfolio.ListedProjects | src/app/api/portfolio/route.ts:29-52 | spelled out row by row: Ok exactly when every row of the page has both array columns readable, and then the i-th listed project is the i-th row of the page with its columns read |
| Portfolio.NewProject | src/app/api/portfolio/route.ts:90-108 | the stored project: technologies and images stored as JSON that reads back as the given lists, `featured \|\| false`, `displayOrder \|\| 0`, `status \|\| 'draft'`, empty links and date as null |
| Portfolio.Create | src/app/api/portfolio/route.ts:70-131 | a body that is not JSON is 500, a refused body 400, a taken slug 400 with nothing written; otherwise exactly one row with the stored project is appended and returned with 201 |
| Portfolio.CreatedSlugTaken | src/app/api/portfolio/route.ts:77-87 | once created, the slug is taken, so a second create with it is refused |
| Services.Views | src/app/api/services/route.ts:22-26 | every service with its feature lists parsed; fails exactly when a row has an unreadable column |
| Services.List | src/app/api/services/route.ts:6-31 | all shown services (every service for `admin=true`, active ones otherwise) in display/creation order with parsed features; 500 exactly when a shown row's column does not parse |
| Services.NewService | src/app/api/services/route.ts:59-74 | feature lists stored as JSON that reads back as the given lists (null when absent), `displayOrder \|\| 0`, `isActive ?? true` |
| Services.Create | src/app/api/services/route.ts:42-89 | a body that is not JSON or refused is 500, a taken slug 400 with nothing written; otherwise the new service is appended and returned with 201 |
| Services.CreatedIsListed | src/app/api/services/route.ts:6-31 | a service created while the list was readable is listed afterwards, for a public caller when active, with the features it was created with |
| Services.AppendStaysReadable | src/app/api/services/route.ts:22-26 | appending a row whose columns parse keeps the list readable |
| Testimonials.List | src/app/api/testimonials/route.ts:6-33 | exactly the approved testimonials (all for `admin=true`), only featured ones for `featured=true`, in featured/display/newest order |
| Testimonials.NewTestimonial | src/app/api/testimonials/route.ts:52-65 | `rating \|\| 5`, `featured \|\| false`, `approved \|\| false`, `displayOrder \|\| 0`, the texts copied |
| Testimonials.CreatedRatingInRange | src/app/api/testimonials/route.ts:49-61 | every testimonial created from an accepted body has a rating in 1..5 |
| Testimonials.Create | src/app/api/testimonials/route.ts:44-88 | a refused body is 400 and a body that is not JSON 500, both writing nothing; otherwise the new testimonial is appended and returned with 201 |
| Testimonials.PublicOnlyWhenApproved | src/app/api/testimonials/route.ts:14-17 | a new testimonial reaches the public list exactly when it was created approved |
| Team.List | src/app/api/team/route.ts:6-24 | exactly the active members (all for `admin=true`), in display order then creation order |
| Team.Stored | src/app/api/team/route.ts:40-42 | the validated fields stored as given; absent display order and active flag take the column defaults 0 and true |
| Team.Create | src/app/api/team/route.ts:35-57 | every failure, a refused body included, is 500 with nothing written; otherwise the member is appended and returned with 201 |
| Team.CreatedMemberWellFormed | src/app/api/team/route.ts:38-42 | a created member has a name and a role of 2+ units and links that are empty or URLs |
| Contact.List | src/app/api/contact/route.ts:6-35 | exactly the `skip`/`take` window for page `page` (default 1) of `limit` (default 10) of the messages with the given status, newest first; `total` counts all of them and `totalPages` is its ceiling |
| Contact.NewMessage | src/app/api/contact/route.ts:69-81 | the stored message is the validated form with status 'new' and non-empty client address and agent taken from the headers |
| Contact.Submit | src/app/api/contact/route.ts:46-96 | a refused form is 400 with one error entry per issue and nothing written; an accepted one appends exactly one message and returns its id with 201; a body that is not JSON is 500 |
| Contact.RejectionNamesFields | src/app/api/contact/route.ts:53-63 | a refused form gets at least one error entry, each naming one of the six contact fields |
| Newsletter.List | src/app/api/newsletter/route.ts:6-32 | exactly the `skip`/`take` window for page `page` (default 1) of `limit` (default 50) of the active subscribers, latest subscription first; `total` counts active subscribers only and `totalPages` is its ceiling |
| Newsletter.IndexOfEmail | src/app/api/newsletter/route.ts:49-51 | `findUnique({ where: { email } })`: the subscriber with the email, or none when no row holds it |
| Newsletter.SingleHolder | src/app/api/newsletter/route.ts:49-51 | with the unique email index, an email held by some row is held by exactly one |
| Newsletter.NoHolder | src/app/api/newsletter/route.ts:73-75 | an email no row holds has no holder, so a create keeps emails unique |
| Newsletter.Subscribe | src/app/api/newsletter/route.ts:43-88 | an active subscriber is refused (400) with nothing written, an inactive one is reactivated with `unsubscribedAt` cleared (200), a new email is appended (201); a refused or non-JSON body is 500; emails stay unique |
| Quiz.Scores | src/app/api/quiz/route.ts:20-23 | the scores the average is taken over, one per matching result, in order |
| Quiz.Mean | src/app/api/quiz/route.ts:20-23 | `_avg.score \|\| 0`: 0 when no result matches |
| Quiz.SumBounds | src/app/api/quiz/route.ts:20-23 | scores all within [lo, hi] sum to between lo and hi times their number |
| Quiz.MeanBounds | src/app/api/quiz/route.ts:20-23 | the average of scores within [lo, hi] lies within [lo, hi] |
| Quiz.Views | src/app/api/quiz/route.ts:27-30 | every result with its answers parsed; fails exactly when the column reader rejects some stored answers |
| Quiz.Report | src/app/api/quiz/route.ts:6-41 | the read succeeds exactly when the answers of the 100 newest matching results all parse; a failure is a 500; a success is a 200 whose results are those rows with parsed answers, whose `totalAttempts` counts every matching result and whose `averageScore` is the mean score of all matching results |
| Quiz.NewestViews | src/app/api/quiz/route.ts:13-36 | the returned results are at most 100 matching rows, all when fewer, newest first, each with its answers parsed |
| Quiz.ReportResults | src/app/api/quiz/route.ts:13-36 | at most the 100 newest matching results (exactly 100 when there are more, all when fewer), newest first, with parsed answers; the average is 0 with none |
| Quiz.ReportNewest | src/app/api/quiz/route.ts:13-36 | the results returned are the newest: no matching result left out is newer than one returned |
| Quiz.NewestResults | src/app/api/quiz/route.ts:14-18 | `take: 100` after `orderBy: { createdAt: 'desc' }`: at most 100 matching rows (all of them when fewer, exactly 100 when more), newest first |
| Quiz.NewestKept | src/app/api/quiz/route.ts:14-18 | those rows hold every matching row newer than any row they hold |
| Quiz.AverageWithinScores | src/app/api/quiz/route.ts:20-23 | the reported average lies within the range of the stored scores |
| Quiz.NewResult | src/app/api/quiz/route.ts:62-72 | the stored result: the answers as JSON that reads back as given, the other fields copied, and the client address and agent from the headers |
| Quiz.Submit | src/app/api/quiz/route.ts:52-86 | a refused or non-JSON body is 500 with nothing written; otherwise exactly the new result is appended and its id returned with 201 |
| Categories.Children | src/app/api/categories/route.ts:29-32 | the children of a category: exactly the rows with that parent (active ones only when the list is active-only), in display order |
| Categories.List | src/app/api/categories/route.ts:8-41 | exactly the selected categories (active unless `active=false`, of the given type, roots only with `children=true`), in display order; with `children=true` each carries its children |
| Categories.Nodes | src/app/api/categories/route.ts:35-39 | one node per found category, in order, with children present exactly when asked for |
| Categories.NewCategory | src/app/api/categories/route.ts:74-87 | the stored category: `displayOrder \|\| 0`, `isActive ?? true`, the rest copied |
| Categories.Create | src/app/api/categories/route.ts:52-97 | non-admins get 401, a missing body or slug 500 and a taken slug 400, all writing nothing; otherwise the category is appended and returned with 201 |
| Pages.List | src/app/api/pages/route.ts:8-28 | published pages only unless `auth=true`; with `auth=true` the requested status or every page; in display order |
| Pages.AuthListsEveryPage | src/app/api/pages/route.ts:17-21 | with `auth=true` and no status every page is listed, drafts included |
| Pages.NewPage | src/app/api/pages/route.ts:61-76 | `template \|\| 'default'`, `status \|\| 'draft'`, `displayOrder \|\| 0`, the rest copied |
| Pages.Create | src/app/api/pages/route.ts:39-85 | non-admins get 401, a missing body or slug 500 and a taken slug 400, all writing nothing; otherwise the page is appended and returned with 201 |
| Pages.DraftNotPublic | src/app/api/pages/route.ts:17-18 | a page created without a status stays off the public list |
| Pricing.DecodeOptional | src/app/api/pricing/route.ts:28 | `featuresAr ? JSON.parse(featuresAr) : null`: a null or empty column stays null; otherwise the parse outcome |
| Pricing.Views | src/app/api/pricing/route.ts:25-29 | every plan with both feature lists parsed; fails exactly when a row holds a column the column reader rejects |
| Pricing.List | src/app/api/pricing/route.ts:8-31 | exactly the active plans (all with `active=false`) in display order with parsed features; 500 exactly when a selected plan's column does not parse; every selected plan is listed |
| Pricing.NewPlan | src/app/api/pricing/route.ts:52-66 | `currency \|\| 'USD'`, `period \|\| 'monthly'`, features stored as JSON of the list or `[]`, Arabic features as JSON or null, `highlighted ?? false`, `displayOrder \|\| 0`, `isActive ?? true` |
| Pricing.OptionalRoundTrip | src/app/api/pricing/route.ts:62 | a stored Arabic feature list parses back to itself |
| Pricing.Create | src/app/api/pricing/route.ts:42-76 | non-admins get 401 and a body that is not JSON 500, both writing nothing; otherwise the plan is appended and returned with 201 |
| Pricing.CreatedPlanReadsBack | src/app/api/pricing/route.ts:25-29 | a created plan reads back with the features it was given (or none) and the Arabic features as given or null |
| Partners.List | src/app/api/partners/route.ts:8-34 | exactly the selected partners (active unless `active=false`, of the given type, featured with `featured=true`) in display order |
| Partners.FiltersNarrow | src/app/api/partners/route.ts:15-27 | every filtered list is part of the unfiltered one |
| Partners.NewPartner | src/app/api/partners/route.ts:55-67 | `type \|\| 'client'`, `featured ?? false`, `displayOrder \|\| 0`, `isActive ?? true`, the rest copied |
| Partners.Create | src/app/api/partners/route.ts:45-77 | non-admins get 401 and a body that is not JSON 500, both writing nothing; otherwise the partner is appended and returned with 201 |
| Partners.CreatedIsListed | src/app/api/partners/route.ts:17-19 | a partner not created inactive is on the public list afterwards |
| Faq.List | src/app/api/faq/route.ts:8-29 | exactly the selected questions (active unless `active=false`, of the given category) in display order |
| Faq.NewQuestion | src/app/api/faq/route.ts:50-59 | `displayOrder \|\| 0`, `isActive ?? true`, the rest copied |
| Faq.Create | src/app/api/faq/route.ts:40-69 | non-admins get 401 and a body that is not JSON 500, both writing nothing; otherwise the question is appended and returned with 201 |
| Faq.CategoryNarrows | src/app/api/faq/route.ts:20-22 | asking for a category lists only questions of that category, each also on the list without the category |
| SocialLinks.List | src/app/api/social-links/route.ts:8-15 | exactly the active links, in display order |
| SocialLinks.NewLink | src/app/api/social-links/route.ts:36-43 | `displayOrder \|\| 0`, `isActive ?? true`, the rest copied |
| SocialLinks.Create | src/app/api/social-links/route.ts:26-53 | non-admins get 401 and a body that is not JSON 500, both writing nothing; otherwise the link is appended and returned with 201 |
| SocialLinks.CreatedListedUnlessInactive | src/app/api/social-links/route.ts:10-13 | a new link is listed exactly when it was not created inactive |
| Menus.Children | src/app/api/menus/route.ts:26-29 | the children of an item: exactly its active child items, in display order |
| Menus.TopItems | src/app/api/menus/route.ts:22-24 | the items of a menu: exactly its active top-level items, in display order |
| Menus.ItemNodes | src/app/api/menus/route.ts:25-30 | each top-level item carries exactly its active children |
| Menus.NodeOf | src/app/api/menus/route.ts:21-32 | one listed menu with its active top-level items in display order, each with its active children |
| Menus.MenuNodes | src/app/api/menus/route.ts:19-33 | one node per found menu, in order |
| Menus.List | src/app/api/menus/route.ts:8-40 | with a location and a match, the first active menu there as one object; otherwise the list of active menus (empty when a location matches none) |
| Menus.FilterFacts | src/app/api/menus/route.ts:13-17 | the found menus are exactly the active menus at the location, each once |
| Menus.NewMenu | src/app/api/menus/route.ts:73-80 | `isActive ?? true`, the rest copied |
| Menus.Create | src/app/api/menus/route.ts:51-89 | non-admins get 401, a missing body or location 500 and a taken location 400, all writing nothing; otherwise the menu is appended and returned with 201 |
| Menus.CreateKeepsLocationsUnique | src/app/api/menus/route.ts:61-71 | creating menus only through POST keeps locations unique |
| MenuItems.NewItem | src/app/api/menu-items/route.ts:18-31 | `target \|\| '_self'`, `displayOrder \|\| 0`, `isActive ?? true`, the rest copied |
| MenuItems.Create | src/app/api/menu-items/route.ts:8-40 | non-admins get 401 and a body that is not JSON 500, both writing nothing; otherwise the item is appended and returned with 201 |
| MenuItems.Moved | src/app/api/menu-items/route.ts:57-60 | an update changes only the display order and parent, each only when given |
| MenuItems.ApplyMove | src/app/api/menu-items/route.ts:55-61 | one update: the item with the id is moved, every other row is as it was |
| MenuItems.Reordered | src/app/api/menu-items/route.ts:54-62 | the moves applied in turn keep every id and creation time |
| MenuItems.UpdateOne | src/app/api/menu-items/route.ts:55-61 | one update changes the table as `ApplyMove` says and succeeds exactly when the id exists |
| MenuItems.UpdateEach | src/app/api/menu-items/route.ts:54-64 | every move is attempted in turn; the table is the reordered one and the run fails exactly when some id is missing |
| MenuItems.Reorder | src/app/api/menu-items/route.ts:44-73 | non-admins get 401 and a body that is not JSON 500, both writing nothing; for an admin every move is applied and the reply is 500 iff some id was missing |
| MenuItems.SameIdsKnown | src/app/api/menu-items/route.ts:56 | whether an update finds its item depends on the ids only, which updates do not change |
| MenuItems.ReplaceIsApply | src/app/api/menu-items/route.ts:55-61 | with unique ids, updating the row with the id is applying the move |
| MenuItems.MissingIsNoop | src/app/api/menu-items/route.ts:55-61 | an update whose id matches no row changes nothing |
| MenuItems.ReorderedMeaning | src/app/api/menu-items/route.ts:54-64 | with distinct ids, each listed item ends with its new order and parent and every other item is exactly as it was |
| Dashboard.EverythingKept | src/app/api/admin/dashboard/route.ts:33 | a `count()` without `where` counts every row |
| Dashboard.ByAge | src/app/api/admin/dashboard/route.ts:47 | `orderBy: { createdAt: 'desc' }`: every row once, newest first |
| Dashboard.Recent | src/app/api/admin/dashboard/route.ts:45-47 | `take: 5` newest first: min(5, rows) rows, newest first, and no row left out is newer than one taken |
| Listing.TakeNewest | src/app/api/admin/dashboard/route.ts:45-47 | a prefix of a newest-first list of the rows meeting a condition holds every such row newer than any row it holds |
| Dashboard.CountsOf | src/app/api/admin/dashboard/route.ts:33-44 | the twelve counts: each total is its table's size and each narrowed count (new, published, active, approved, pending) counts exactly its rows, so never exceeds its total |
| Dashboard.ContactBriefs | src/app/api/admin/dashboard/route.ts:48-55 | the selected contact columns, one brief per contact, in order |
| Dashboard.OrderBriefs | src/app/api/admin/dashboard/route.ts:60-68 | the selected order columns, one brief per order, in order |
| Dashboard.Summarize | src/app/api/admin/dashboard/route.ts:7-112 | no session is 401; any session (no role check) gets the counts, the key-indexed site stats and the 5 newest contacts and orders; a failed read is 500 |
| Dashboard.SiteStatsMeaning | src/app/api/admin/dashboard/route.ts:74-77 | `siteStats` has an entry for exactly the stored keys, each holding its row's value |
| Auth.FindUser | src/lib/auth.ts:19-21 | `findUnique({ where: { email } })`: the user with the email, or none when no row has it |
| Auth.Authorize | src/lib/auth.ts:14-44 | missing email or password is refused first; sign-in succeeds exactly for an existing active user with a stored password that the comparison accepts, and returns that user without the password; an unknown email gives the invalid-credentials error; a found user with a stored password who is inactive is refused as inactive, before the password is compared, and an inactive refusal means the found user is inactive |
| Auth.InactiveIgnoresPassword | src/lib/auth.ts:27-31 | an inactive account is refused before the password is compared: the answer does not depend on the comparison |
| Auth.Jwt | src/lib/auth.ts:52-58 | on sign-in the token gets the user's id and role; on later requests it is returned unchanged |
| Auth.SessionOf | src/lib/auth.ts:59-65 | a session with a user gets the token's id and role; one without a user is returned unchanged |
| Auth.SignInGivesRole | src/lib/auth.ts:37-65 | the session built after a successful sign-in carries the signed-in user's role, so an admin's session passes the admin gate and any other role's does not |
| Auth.TokenKeepsRole | src/lib/auth.ts:52-58 | a later request keeps the role the token got at sign-in |
| Auth.AdminEmail | src/lib/auth.ts:76 | `ADMIN_EMAIL \|\| 'admin@lumina.agency'`, never empty |
| Auth.AdminPassword | src/lib/auth.ts:77 | `ADMIN_PASSWORD \|\| 'admin123456'`, never empty |
| Auth.AdminUser | src/lib/auth.ts:85-93 | the created user: the administrator email, the hashed password, name 'Admin', role 'admin', active |
| Auth.CreateAdminUser | src/lib/auth.ts:75-96 | the administrator is inserted only when no user has its email; afterwards the email is taken |
| Auth.Init | src/app/api/auth/init/route.ts:6-43 | 400 with nothing written when the administrator exists; otherwise exactly the administrator is appended and its id, email and name returned with 201 |
| Auth.AdminCanSignIn | src/app/api/auth/init/route.ts:25-33 | once created, the administrator can sign in with the configured password and gets the admin role |
| Auth.FindAppended | src/lib/auth.ts:19-21 | appending a user with a fresh email makes the lookup find that user |
| Middleware.Authorized | src/middleware.ts:28-47 | the login page and `/api/` paths are always allowed, other `/admin` paths exactly when a token is present, everything else allowed |
| Middleware.Handle | src/middleware.ts:5-25 | the login page sends a signed-in visitor to `/admin`; other `/admin` paths without a token go to the login page; every other request passes |
| Middleware.Route | src/middleware.ts:4-54 | paths outside `/admin/:path*` pass untouched; on matched paths a visitor without a token reaches only the login page, and a signed-in visitor reaches every page except the login page, which sends them to `/admin` |
| Middleware.MatchedIsAdmin | src/middleware.ts:52-54 | every matched path starts with `/admin`, so the `/api/` branch of `authorized` never applies |
| Middleware.LoginRedirectIsAuthorized | src/middleware.ts:18-22 | on matched paths `authorized` refuses exactly the requests the middleware would redirect to the login page |
| Slugs.LowerChar | src/app/admin/portfolio/page.tsx:141 | lower-casing leaves slug characters and white space as they are |
| Slugs.KeepSlugChars | src/app/admin/portfolio/page.tsx:142 | what remains holds only `a-z`, `0-9`, `-` and white space |
| Slugs.DashSpaces | src/app/admin/portfolio/page.tsx:143 | a non-empty text stays non-empty, and a leading white space becomes a leading `-` |
| Slugs.DashSpacesChars | src/app/admin/portfolio/page.tsx:143 | every character of the result is `-` or a non-space character of the input, so any property those share carries over |
| Slugs.DashSpacesNoWhiteSpace | src/app/admin/portfolio/page.tsx:143 | no white space remains after the replacement |
| Slugs.DropDashes | src/app/admin/portfolio/page.tsx:144 | the result is a suffix of its input that does not start with `-` |
| Slugs.Squeeze | src/app/admin/portfolio/page.tsx:144 | the result never holds two `-` in a row and keeps the first character |
| Slugs.SqueezeChars | src/app/admin/portfolio/page.tsx:144 | every character of the result is a character of the input, so any property those share carries over |
| Slugs.SqueezedSlugChars | src/app/admin/portfolio/page.tsx:141-144 | before the final trim the text holds slug characters only |
| Slugs.SlugShape | src/app/admin/portfolio/page.tsx:139-146 | a generated slug uses only `a-z`, `0-9` and `-` and never two `-` in a row |
| Slugs.SlugIdempotent | src/app/admin/services/page.tsx:113-120 | generating a slug from a generated slug gives it back unchanged |
| Slugs.LowerSlug | src/app/admin/portfolio/page.tsx:141 | lower-casing a text made of slug characters changes nothing |
| Slugs.KeepSlug | src/app/admin/portfolio/page.tsx:142 | the character filter keeps a text made of slug characters whole |
| Slugs.DashSpacesNoSpace | src/app/admin/portfolio/page.tsx:143 | a text without white space goes through the space replacement unchanged |
| Slugs.SqueezeNoDoubleDash | src/app/admin/portfolio/page.tsx:144 | a text with no `--` goes through the dash squeeze unchanged |
| Slugs.NoLatinGivesEmpty | src/app/admin/portfolio/page.tsx:139-146 | a title without any Latin letter, digit, space or `-` (an Arabic title) yields the empty slug |
| Slugs.NoLatinKeepsNothing | src/app/admin/portfolio/page.tsx:141-142 | for such a title nothing survives the character filter |
| Slugs.LeadingSpaceGivesLeadingDash | src/app/admin/portfolio/page.tsx:143-145 | because `trim` runs last and removes only white space, a title starting with white space yields a slug starting with `-` |
| Editors.RemoveAt | src/app/admin/portfolio/page.tsx:130-137 | the entry at the index leaves the list and the others keep their order; an index outside the list changes nothing |
| Editors.RemoveAppended | src/app/admin/portfolio/page.tsx:120-137 | adding an entry and then removing it by its position gives the original list back |
| Editors.SlugAfterTitle | src/app/admin/portfolio/page.tsx:183-188 | while creating, the slug follows the title and is a well-formed slug; while editing an existing entry it is left alone |
| Editors.SaveRequestFor | src/app/admin/portfolio/page.tsx:77-81 | an editor opened on an existing slug PATCHes that entry; otherwise it POSTs to the collection |
| Editors.ProjectEditor.constructor | src/app/admin/portfolio/page.tsx:46-52 | the page mounts closed, with no draft, no slug being edited and an empty input |
| Editors.ProjectEditor.StartNew | src/app/admin/portfolio/page.tsx:397-402 | the editor opens on the empty project for a new entry |
| Editors.ProjectEditor.StartEdit | src/app/admin/portfolio/page.tsx:466-488 | the editor opens on the listed project and remembers its slug |
| Editors.ProjectEditor.Cancel | src/app/admin/portfolio/page.tsx:163-168 | the editor closes and forgets the draft and the slug |
| Editors.ProjectEditor.AddTech | src/app/admin/portfolio/page.tsx:120-128 | a non-blank input is appended trimmed and the input cleared; a blank input or a missing draft changes nothing |
| Editors.ProjectEditor.RemoveTech | src/app/admin/portfolio/page.tsx:130-137 | only the technology list of the draft changes, losing the chosen entry |
| Editors.ProjectEditor.SetTitle | src/app/admin/portfolio/page.tsx:183-188 | the title changes, and the slug follows it only while creating |
| Editors.ProjectEditor.Save | src/app/admin/portfolio/page.tsx:72-105 | without a draft nothing is sent; otherwise the request matches the editor's mode, a success closes the editor and any other outcome leaves the draft open, and the button is re-enabled |
| Editors.ServiceEditor.constructor | src/app/admin/services/page.tsx:42-49 | the page mounts closed with both feature inputs empty |
| Editors.ServiceEditor.StartNew | src/app/admin/services/page.tsx:386-391 | the editor opens on the empty service |
| Editors.ServiceEditor.StartEdit | src/app/admin/services/page.tsx:450-469 | the editor opens on the listed service and remembers its slug |
| Editors.ServiceEditor.Cancel | src/app/admin/services/page.tsx:158-162 | the editor closes and forgets the draft and the slug |
| Editors.ServiceEditor.AddFeature | src/app/admin/services/page.tsx:122-130 | a non-blank English feature is appended trimmed; the Arabic list and input are untouched |
| Editors.ServiceEditor.AddFeatureAr | src/app/admin/services/page.tsx:132-140 | a non-blank Arabic feature is appended trimmed; the English list and input are untouched |
| Editors.ServiceEditor.RemoveFeature | src/app/admin/services/page.tsx:285-289 | the chosen English feature leaves the list; nothing else changes |
| Editors.ServiceEditor.RemoveFeatureAr | src/app/admin/services/page.tsx:324-328 | the chosen Arabic feature leaves the list; nothing else changes |
| Editors.ServiceEditor.SetTitle | src/app/admin/services/page.tsx:197-202 | the title changes, and the slug follows it only while creating |
| Editors.ServiceEditor.Save | src/app/admin/services/page.tsx:69-104 | the same protocol as the project editor, against `/api/services` |
| Editors.ServiceSaveNeedsNoFeatures | src/app/admin/services/page.tsx:364 | unlike a project, a service can be saved with both feature lists empty |
| AdminPages.StatsOf | src/app/admin/page.tsx:43-57 | the message and subscriber totals come from `pagination.total`, the project and testimonial totals from the list lengths; the new-message, published-project and pending-testimonial counts are exactly the entries of their lists that have that status, so each is bounded by its total; anything absent counts 0 |
| AdminPages.NewCountsFetchedOnly | src/app/admin/page.tsx:46 | the new-message figure equals the number fetched exactly when every fetched message is new, and is 0 exactly when none is |
| AdminPages.NoPendingMeansAllApproved | src/app/admin/page.tsx:54 | the pending figure is 0 exactly when every fetched testimonial is approved |
| AdminPages.DashboardPage.constructor | src/app/admin/page.tsx:14-23 | the page mounts loading, without figures or contacts |
| AdminPages.DashboardPage.FetchDashboardData | src/app/admin/page.tsx:29-65 | a successful round sets the figures and the recent list from the replies, a failure keeps the previous ones, and loading ends either way |
| AdminPages.DashboardPage.CardValues | src/app/admin/page.tsx:67-100 | there are four cards, all 0 before the figures arrive, the first showing the message total and the last the subscribers |
| AdminPages.QueryOf | src/app/admin/contacts/page.tsx:34-38 | the query always holds the page, read back as that number, and a limit of 10, and holds a status exactly when a filter is chosen |
| AdminPages.QueryReadByRoute | src/app/admin/contacts/page.tsx:34-40 | the contact route reads the inbox's query as the same page of 10 messages |
| AdminPages.QueryText | src/app/admin/contacts/page.tsx:35-36 | the page and limit are written as their decimal text |
| AdminPages.ReadBack | src/app/api/contact/route.ts:10-11 | parameters written as decimal text are parsed back to the same page and limit |
| AdminPages.QueryFiltersByStatus | src/app/admin/contacts/page.tsx:37 | the route keeps exactly the messages with the chosen status, or all of them without a filter |
| AdminPages.PrevPage | src/app/admin/contacts/page.tsx:193 | the previous page is never below 1 and is one less whenever that stays at or above 1 |
| AdminPages.NextPage | src/app/admin/contacts/page.tsx:203 | the next page is never past the last page and is one more whenever that stays within the pages |
| AdminPages.PagerStaysInRange | src/app/admin/contacts/page.tsx:193-203 | from a page within range both buttons stay in range, and forward-then-back or back-then-forward returns to the same page away from the ends |
| AdminPages.StatusBadge | src/app/admin/contacts/page.tsx:99-119 | a known status gets its own style and label; an unknown one is shown as itself in the style of a new message |
| AdminPages.ProjectTypeLabel | src/app/admin/contacts/page.tsx:121-129 | a known project type gets its label; an unknown one is shown as its code |
| AdminPages.ContactsPage.constructor | src/app/admin/contacts/page.tsx:20-25 | the inbox mounts loading, empty, unfiltered, on page 1 of 1 |
| AdminPages.ContactsPage.FetchContacts | src/app/admin/contacts/page.tsx:31-52 | only a successful reply replaces the list and page count; the filter, page and selection are untouched |
| AdminPages.ContactsPage.SetStatusFilter | src/app/admin/contacts/page.tsx:135-137 | the filter changes and the page does not, so it can lie past the last page of the new filter |
| AdminPages.ContactsPage.Previous | src/app/admin/contacts/page.tsx:193 | only the page changes, to the previous page |
| AdminPages.ContactsPage.Next | src/app/admin/contacts/page.tsx:203 | only the page changes, to the next page |
| AdminPages.ContactsPage.Select | src/app/admin/contacts/page.tsx:171 | only the selection changes |
| AdminPages.ContactsPage.UpdateStatus | src/app/admin/contacts/page.tsx:54-71 | after an accepted update the selected message, when it is the one changed, shows the new status and nothing else of it changes |
| AdminPages.ContactsPage.DeleteContact | src/app/admin/contacts/page.tsx:85-97 | a confirmed and accepted delete clears the selection; otherwise nothing changes |
| Language.Code | src/context/LanguageContext.tsx:37-42 | a language is stored as "en" or "ar", and the stored code is read back as the same language at the next mount |
| Language.Decode | src/context/LanguageContext.tsx:23-26 | a stored value is adopted exactly when it is "en" or "ar" |
| Language.Dir | src/context/LanguageContext.tsx:33 | the text runs right to left exactly for Arabic |
| Language.Texts | src/context/LanguageContext.tsx:44 | the text table is the one of the current language |
| Language.LanguageProvider.constructor | src/context/LanguageContext.tsx:17-18 | the first render is in English whatever is stored |
| Language.LanguageProvider.Mount | src/context/LanguageContext.tsx:20-35 | a valid stored language is adopted and anything else ignored, and the document's `lang` and `dir` then match the language |
| Language.LanguageProvider.ChangeLanguage | src/context/LanguageContext.tsx:37-42 | the language and its stored copy both become the chosen one, and the document follows |
| ApiData.ApiData.constructor | src/hooks/useApiData.ts:6-9 | the first render shows the fallback, loading, without an error |
| ApiData.ApiData.Settle | src/hooks/useApiData.ts:11-29 | a successful reply with data replaces the list, an empty one by the fallback; an unsuccessful reply changes nothing; a throw records its message or "Failed to fetch"; loading ends every time |
| ApiData.UseList | src/hooks/useApiData.ts:55-57 | a list hook with an empty fallback, once settled, shows exactly the list a successful reply carried and the empty list in every other case, and no longer loads |
| Poll.BusinessPoints | src/components/SimplePoll.tsx:47 | a business answer scores 3 exactly for C, 2 exactly for B and 1 otherwise |
| Poll.CorrectAnswer | src/components/SimplePoll.tsx:84-91 | only the developer quiz has an answer key, and only for its three questions |
| Poll.DeveloperPoints | src/components/SimplePoll.tsx:62-65 | a developer answer scores at most 1 |
| Poll.DeveloperPointsMatchKey | src/components/SimplePoll.tsx:62-65 | a developer answer scores exactly when it is the answer the key shows as correct |
| Poll.ResultKey | src/components/SimplePoll.tsx:56 | the business result is 'enterprise' exactly above 7 and 'startup' otherwise; the developer result is 'success' exactly from 2 up and 'fail' otherwise |
| Poll.Points | src/components/SimplePoll.tsx:46-67 | a business answer earns 1 to 3 points, a developer answer 0 or 1 |
| Poll.SimplePoll.constructor | src/components/SimplePoll.tsx:11-17 | the poll mounts closed, with no quiz, no score, no answer and no result |
| Poll.SimplePoll.OpenQuiz | src/components/SimplePoll.tsx:24-32 | opening a quiz restarts it at question 0 with score 0, no selection and no result, and shows the modal |
| Poll.SimplePoll.CloseModal | src/components/SimplePoll.tsx:34-37 | closing hides the modal and forgets the quiz; the score and progress stay |
| Poll.SimplePoll.Choose | src/components/SimplePoll.tsx:39-43 | an answer is taken exactly when none is pending, and then waits for its timer; nothing else changes |
| Poll.SimplePoll.Settle | src/components/SimplePoll.tsx:43-81 | the pending answer is scored; before the last question the quiz advances by one and clears the choice, on the last it completes with the result its score earns; the score stays within what the answers so far allow |
| Poll.PlayBusiness | src/components/SimplePoll.tsx:46-60 | three business answers complete the quiz with a score from 3 to 9, the sum of their points, and 'enterprise' exactly above 7 |
| Poll.PlayDeveloper | src/components/SimplePoll.tsx:61-79 | three developer answers give a score from 0 to 3, one per answer matching the key, and 'success' exactly from 2 up |
| Components.Localized | src/components/TestimonialsSection.tsx:22 | the Arabic text is shown exactly when the page is right-to-left and that text is non-empty; the primary text otherwise |
| Components.LocalizedOpt | src/components/AboutTeam.tsx:23 | the same choice for a primary text that may be null |
| Components.WithFallback | src/components/TestimonialsSection.tsx:19-31 | a non-empty API list is mapped one item to one card in order; an empty one gives the built-in items |
| Components.SlidesMeaning | src/components/TestimonialsSection.tsx:20-28 | each API testimonial gives one slide in order, with quote and role localised and author, company and rating unchanged |
| Components.NextSlide | src/components/TestimonialsSection.tsx:37 | the next index stays below the slide count: one more, or the first slide after the last |
| Components.PrevSlide | src/components/TestimonialsSection.tsx:148 | the previous index stays below the slide count: one less, or the last slide before the first |
| Components.PrevUndoesNext | src/components/TestimonialsSection.tsx:148-157 | back undoes forward and forward undoes back on every index in range |
| Components.Carousel.constructor | src/components/TestimonialsSection.tsx:11 | the carousel starts on slide 0 with no slides and no timer |
| Components.Carousel.SetCount | src/components/TestimonialsSection.tsx:34-40 | a rotation timer runs exactly when there are slides; the index is kept |
| Components.Carousel.Tick | src/components/TestimonialsSection.tsx:36-38 | a tick moves to the next slide and stays in range |
| Components.Carousel.Next | src/components/TestimonialsSection.tsx:157 | the forward arrow moves to the next slide and stays in range |
| Components.Carousel.Previous | src/components/TestimonialsSection.tsx:148 | the back arrow moves to the previous slide and stays in range |
| Components.BuiltInCard | src/components/PortfolioSection.tsx:17-30 | built-in project `i` has id `fallback-i` and slug `project-(i+1)`, its technologies or none, and is published and not featured |
| Components.BuiltInCards | src/components/PortfolioSection.tsx:17 | the built-in projects become one card each, in order |
| Components.BuiltInIdsDistinct | src/components/PortfolioSection.tsx:18-27 | no two built-in projects share an id or a slug |
| Components.PrefixedDistinct | src/components/PortfolioSection.tsx:18 | different numbers after the same prefix give different texts |
| Components.MapSeq | src/components/PortfolioSection.tsx:44 | the category list has one entry per card, in order |
| Components.FilterTabs | src/components/PortfolioSection.tsx:44 | the tabs are "all" followed by the project categories, each category present, none invented and none repeated, in the order in which the categories first appear among the projects |
| Components.Shown | src/components/PortfolioSection.tsx:46-48 | the tab "all" shows every card; any other tab shows exactly the cards of that category |
| Components.IconKey | src/components/ServicesBento.tsx:103 | a service's icon is its own when the icon table has it, else the default, and always one the table has |
| Components.BuiltInServices | src/components/ServicesBento.tsx:64-93 | there are four built-in service cards, each with an icon from the table |
| Components.ServiceCardsMeaning | src/components/ServicesBento.tsx:96-107 | each API service gives one card whose id is its slug unless empty, whose texts are localised, whose details are the Arabic features only in right-to-left mode when there are some, and whose icon comes from the table |
| Components.MemberCardsMeaning | src/components/AboutTeam.tsx:18-31 | each API member gives one card; left-to-right pages show the primary texts, and the image and social links pass through unchanged |
| McpServer.ScanDir | mcp-server/src/index.ts:285-299 | the walk appends to the shared list exactly the routes of the page files below the directory, in directory order |
| McpServer.FindPages | mcp-server/src/index.ts:282-303 | a missing app directory gives no pages; otherwise the pages are those the walk lists from the root |
| McpServer.PagesFromHas | mcp-server/src/index.ts:290-298 | the pages found under one entry of a directory are among the pages listed for that directory |
| McpServer.PageListed | mcp-server/src/index.ts:293-296 | a `page.tsx` or `page.ts` file below directories `d1 … dk` is listed as the route `/d1/…/dk` (or `/` at the root) |
| McpServer.OnlyPagesListed | mcp-server/src/index.ts:293-296 | conversely, every listed route is that of such a page file |
| McpServer.FindComponents | mcp-server/src/index.ts:305-310 | a missing directory gives nothing; otherwise exactly its `.tsx` and `.ts` files, in directory order |
| McpServer.QuoteEnd | mcp-server/src/index.ts:370 | the unquoted run ends at the first quote at or after its start |
| McpServer.ImportAt | mcp-server/src/index.ts:370-373 | a module name is read at a position exactly when the `from '…'` pattern matches there, and it is the text between the quotes |
| McpServer.Specifiers | mcp-server/src/index.ts:370-373 | every module name found is non-empty and holds no quote |
| McpServer.PackageName | mcp-server/src/index.ts:377-379 | a package name is a prefix of its module name, and for an unscoped name it is the part before the first `/` |
| McpServer.FirstSlash | mcp-server/src/index.ts:379 | the first `/` of `a/b` is the one after `a` when `a` holds none |
| McpServer.PackageNames | mcp-server/src/index.ts:377-379 | `@scope/pkg/sub` belongs to `@scope/pkg`, `pkg/sub` to `pkg`, and a bare package name to itself |
| McpServer.AllPackagesMeaning | mcp-server/src/index.ts:366-388 | a package is collected exactly when the imports of some source file yield it |
| McpServer.PackagesOfMeaning | mcp-server/src/index.ts:372-381 | a file's imports yield a package exactly when one of its module names is external and belongs to that package |
| McpServer.RelativeImportsIgnored | mcp-server/src/index.ts:375 | relative (`.`) and aliased (`@/`) imports never yield a package |
| McpServer.AddPackages | mcp-server/src/index.ts:372-381 | adding one file's packages to the set keeps it free of repeats: the old packages in their order, then the file's packages not yet present in the order they are first imported |
| McpServer.CollectPackages | mcp-server/src/index.ts:364-388 | the package set holds no repeats and holds exactly the packages the files' imports yield, in the order of their first import |
| McpServer.CollectPackagesStep | mcp-server/src/index.ts:364-388 | adding one more file's packages to the set built from the earlier files gives the set built from all of them |
| McpServer.AddPackagesStep | mcp-server/src/index.ts:372-381 | adding one more module name's package keeps the set in first-insertion order |
| McpServer.InstalledDeps | mcp-server/src/index.ts:393-396 | the declared packages are those of `dependencies` and `devDependencies`, and a dev dependency's version wins on a clash |
| McpServer.MissingPackages | mcp-server/src/index.ts:398-405 | a collected package is reported exactly when it is not declared with a version, not a built-in module and not under `next/`, in collection order |
| McpServer.BuiltInsNeverMissing | mcp-server/src/index.ts:399-402 | `react` and any `next/` subpath are never reported missing, whatever `package.json` declares |
| McpServer.IconByExtension | mcp-server/src/index.ts:444-450 | `.tsx`, `.ts` and `.css` files each get their own icon and every other file the generic one |
| McpServer.Size | mcp-server/src/index.ts:432-453 | every entry counts at least itself |
| McpServer.TextAppend | mcp-server/src/index.ts:441-451 | writing two groups of lines writes the first and then the second |
| McpServer.EntryText | mcp-server/src/index.ts:440-452 | an entry's text is its own line followed by the text of its subtree |
| McpServer.TreeText | mcp-server/src/index.ts:435-453 | the text of a directory's entries is the first entry's text followed by the rest's |
| McpServer.BuildTree | mcp-server/src/index.ts:429-456 | the text built is the listing's lines, each ended by a newline |
| McpServer.WriteEntry | mcp-server/src/index.ts:436-452 | one turn of the loop writes the entry's line and, for a directory, its subtree |
| McpServer.PrefixOfLonger | mcp-server/src/index.ts:442 | a line that starts with a longer prefix starts with the shorter one |
| McpServer.EntryShape | mcp-server/src/index.ts:436-442 | an entry takes one line per entry of its subtree; its own line is the prefix, its connector and its label, and every line below it starts with the prefix and the child prefix |
| McpServer.TreeShape | mcp-server/src/index.ts:429-456 | a directory's listing has one line per entry at any depth, each starting with the prefix |
| McpServer.AllStartWith | mcp-server/src/index.ts:442 | joining lines that all start with a prefix keeps that property |
| McpServer.HeadLine | mcp-server/src/index.ts:436-437 | each entry's line comes first among its group, and uses `└── ` exactly when the entry is its directory's last |
| McpServer.TsxFiles | mcp-server/src/index.ts:474 | the components are exactly the directory's `.tsx` files, in directory order |
| McpServer.IndexOf | mcp-server/src/index.ts:480 | the position found is the first occurrence |
| McpServer.ComponentName | mcp-server/src/index.ts:480 | only the first `.tsx` of the file name is removed |
| McpServer.IsUsed | mcp-server/src/index.ts:481-493 | a component counts as used exactly when some file other than its own mentions both `from` and its name |
| McpServer.FindUnusedComponents | mcp-server/src/index.ts:466-512 | the reported components are the unused `.tsx` components in directory order, and the count analysed is the number of `.tsx` components |
| McpServer.UnusedMeaning | mcp-server/src/index.ts:479-497 | a component is reported exactly when it is a `.tsx` file of the directory and no other file mentions both `from` and its name |
| McpServer.SkipSpaces | mcp-server/src/index.ts:524 | the white-space run ends at the first non-space |
| McpServer.HeaderEnd | mcp-server/src/index.ts:524-525 | a header match ends just past an opening brace |
| McpServer.FirstHeader | mcp-server/src/index.ts:524-525 | the header found is the leftmost match, and none is found exactly when none exists |
| McpServer.StopAt | mcp-server/src/index.ts:524 | the lazy block ends at the first `ar:` after its start, or at the end of the text |
| McpServer.EnglishBlock | mcp-server/src/index.ts:524 | a non-empty English block is a piece of the file starting with `en:` |
| McpServer.ArabicBlock | mcp-server/src/index.ts:525 | a non-empty Arabic block starts with `ar:` and runs to the end of the file, and it is empty exactly when no `ar:` header exists |
| McpServer.CheckTranslations | mcp-server/src/index.ts:514-542 | a missing file is reported as such; otherwise the two key counts are those of the two blocks and they match exactly when equal |
| McpServer.EnglishBlockStops | mcp-server/src/index.ts:520-537 | the English block stops at the first `ar:` after its header, even one ending a longer key: of the two keys of `en:{dar:` only `en:` is counted, and `checkTranslations` reports 1 English key against 0 Arabic ones |
| McpServer.EnglishOfCutKey | mcp-server/src/index.ts:524 | `/en:\s*{[\s\S]*?(?=ar:\|$)/` matches `en:{d` in `en:{dar:`, which holds one key |
| McpServer.ArabicOfCutKey | mcp-server/src/index.ts:525 | `/ar:\s*{[\s\S]*$/` does not match `en:{dar:`, whose only `ar:` is not followed by a brace |
| McpServer.KeysOfCutKey | mcp-server/src/index.ts:524-525 | `/\w+:/g` finds two keys in `en:{dar:` |
| Analyze.FindPages | mcp-server/analyze.js:14-27 | the script lists exactly the routes of the `page.tsx` files below the directory, in directory order |
| Analyze.PagesGrowWithNames | mcp-server/analyze.js:22 | counting more file names as pages only adds routes |
| Analyze.ScriptPagesAreServerPages | mcp-server/analyze.js:22 | every page the script lists the server's `findPages` lists too, and a route whose only page file is `page.ts` is listed by the server alone |
| Analyze.Warnings | mcp-server/analyze.js:55 | one warning per flagged file, naming it, in order |
| Analyze.HookIssuesMeaning | mcp-server/analyze.js:50-56 | a file is warned about exactly when it calls a React hook, lacks the `"use client"` directive in both quotings and its path does not contain `context/` |
| Analyze.HookIssuesStep | mcp-server/analyze.js:46-56 | the warnings of one more file come after those of the files before it |
| Analyze.HookWithSpaces | mcp-server/analyze.js:51 | a hook call with spaces before the parenthesis counts |
| Analyze.ScanSources | mcp-server/analyze.js:46-69 | the loop's warnings are the hook warnings of the files in order, and its package set holds no repeats and exactly the packages the files' imports yield; it is `Dedup` of all imported packages, so in the order of their first import (`Seqs.DedupOrdered`) |
| Analyze.MissingIssuesAppend | mcp-server/analyze.js:82 | the issues of two package lists are those of the first followed by those of the second |
| Analyze.MissingStep | mcp-server/analyze.js:77-84 | the issues of one more package come after those of the packages before it |
| Analyze.MissingIssues | mcp-server/analyze.js:82 | one missing-package issue per package, in order |
| Analyze.ReportPackages | mcp-server/analyze.js:77-84 | the loop appends to the issues exactly the packages that are not installed, not built in and not under `next/`, in set order |
| Analyze.InstalledNeverReported | mcp-server/analyze.js:73-79 | a package declared with a version in either dependency map is never reported |
| Analyze.IsMentioned | mcp-server/analyze.js:97-105 | a component counts as used exactly when some file other than its own contains its name |
| Analyze.FindUnused | mcp-server/analyze.js:89-110 | the unused components are the `.tsx` components no other file mentions, in directory order |
| Analyze.ScriptUnusedAlsoServerUnused | mcp-server/analyze.js:101 | the script's test is looser than the server's, so every component the script reports as unused the server reports too |
| Analyze.CallLength | mcp-server/analyze.js:131 | a console call is found at the start exactly when the expression matches there, and it takes at least twelve characters |
| Analyze.ConsoleCallsMeaning | mcp-server/analyze.js:131-134 | a text counts no console call exactly when the expression matches nowhere in it, and each counted call takes at least twelve characters |
| Analyze.CountConsoleCalls | mcp-server/analyze.js:128-136 | the count is the sum of every file's console calls |
| Analyze.NoCallsNoCount | mcp-server/analyze.js:128-136 | the count is zero exactly when no file contains a console call |
| Analyze.FoundHeavy | mcp-server/analyze.js:140-141 | the heavy packages reported are exactly the listed ones declared with a version, in the list's order |

## Left out

- Portfolio.List, Contact.List, Newsletter.List require `page` and `limit` to parse to numbers of at least 1. The routes do not check this: `parseInt` may give NaN, 0 or a negative number, and then the database call decides.
- Database failures are not modelled as such. They appear only as parameters: `readFails` for the dashboard, the `fails` key set for settings, and an unknown id for menu items.
- Database transactions and isolation are left out. The fan-outs that run through `Promise.all` (settings PUT, stats PATCH, menu-items PUT, the dashboard reads, the admin dashboard fetches) run in sequence. Every entry is still attempted.
- Request bodies that are not JSON end in the generic 500 branch, with nothing written. They are modelled as an absent body (`None`); Settings.Put and Stats.Patch take their entry lists as an optional body in the same way.
- Request bodies that are JSON but not an object (`null`, `[]`, `42`) cannot be written down: a body is a map from member names to values. zod refuses such a body with one issue whose path is empty, so the routes name the field `unknown`. They answer 400 in contact, portfolio and testimonials, and 500 in the other routes.
- ErrorFieldsNamed (in Validations) is stated for object bodies only. For a body that is not an object, the source names the field `unknown`, which the model does not represent.
- ContactErrorFields (in Validations) is stated for object bodies only. A contact body that is not an object gets a 400 naming the field `unknown` in the source.
- RejectionNamesFields (in Contact) is stated for object bodies only. For a body that is not an object the reply names `unknown`, which is not a schema field.
- A JSON `null` member is the value `Other`, as are objects and arrays that are not lists of strings. Every rule refuses `Other`, optional rules included, as zod's `.optional()` does. Menu items tell a `null` `parentId` apart from an absent one.
- Numbers in request bodies are integers (`Num(n: int)`). zod's `z.number()` accepts any finite double, so a fractional `rating` (such as 4.5), `displayOrder`, `pricingFrom` or `score` is not representable. The same goes for the FAQ `categoryId` and the pricing `price` below.
- Validations.RuleIssues reports a list that holds a non-string element as one issue at the field's path. zod reports one issue per bad element, at the path of the field followed by the element's index.
- Validations.RuleIssues reports a refused value of a `.or(z.literal(''))` rule as one issue of kind InvalidUnion. zod reports an `invalid_union` issue holding the issues of both branches, and how it is flattened into the reply depends on the zod version; the model does not follow that nesting.
- The texts of zod messages are left out. Error replies carry a status and a short tag, not the source's wording.
- The e-mail and URL syntax that zod checks are oracle predicates. The same holds for bcrypt hashing and comparison.
- The next-auth session, cookie and token signing are left out. A session is a value holding a role.
- Dates are left out: `completionDate` parsing, the newsletter "this month" figure, locale formatting. Creation times are natural numbers passed to each insert. The model does not require them to grow from one insert to the next, and the table invariant does not order them.
- Quiz.Mean is computed on exact reals, not IEEE doubles, so rounding is not modelled.
- The Prisma schema is not part of this model. These column defaults are assumed: team `displayOrder` 0 and `isActive` true, contact `status` 'new', newsletter `isActive` true and `subscribedAt` the time of the insert.
- Record ids are natural numbers handed out by the table. Prisma's ids are generated strings (cuids); only their uniqueness is modelled.
- The settings list is ordered by key in the source. That only affects the key order of the returned object, which the model does not represent.
- Menus without an explicit order are listed in table order.
- The FAQ `categoryId` is kept as text and the pricing `price` as an integer.
- The JSON reader accepts only what `JSON.stringify` writes for a list of strings. It does not accept white space between tokens or surrogate-pair `\u` escapes.
- Slugs.LowerChar models `toLowerCase` only for characters whose lower case can survive the slug filter. Every other character is dropped by the next step whatever its lower case is.
- Poll.SimplePoll.Settle: an answer timer that ends after the modal was closed does nothing in the model. In the source its callback still scores the answer, with the quiz it captured at click time. For the same reason Poll.SimplePoll.OpenQuiz requires that no timer is pending.
- The contact inbox's notes field (`updateNotes`) only sends a request and changes no page state, so it is left out. So are the `useStats` hook and the `useLanguage` guard that throws outside its provider.
- Single-record GET, PATCH and DELETE routes are not part of this model, and neither are view counting and delete guards.
- Screens, animations, form plumbing and the pages that only toggle fields are left out.
- Firebase analytics and the seed and admin scripts are left out.
- The static translation table is a parameter: built-in items are passed in.
- The developer tool's file reads, `glob` calls and stdio transport are left out. Directory trees and file texts are parameters.
- The printed report texts of the developer tool are left out. The model returns the lists and counts they print.
- McpServer.FindUnusedComponents and Analyze.FindUnused take the components directory's listing, so the missing-directory message of `findUnusedComponents` and the exception `analyze.js` raises are not modelled. Likewise Analyze.FindPages takes the app directory's entries and not its absence.
- `checkAllImports` fills a map from module names to the files that import them, `allImports`, and never reads it, so it is left out. `analyze.js` builds `allFileContents` and `importPattern` and never uses them, so they are left out too.
- The `analyzeBundleDependencies` tool of the server is left out. The heavy-package list of `analyze.js` is modelled.
- Middleware.Route sends a visitor that `authorized` refuses straight to `/admin/login`. In the source `withAuth` is given no `pages` option, so it redirects to `/api/auth/signin?callbackUrl=<path>`, and next-auth then forwards to the configured sign-in page `/admin/login`. The intermediate hop and the `callbackUrl` are not modelled.
- AdminPages.StatusBadge and Components.IconKey look colours and icons up only among the keys their tables declare. In the source, an inherited property name of a plain object (such as `constructor`) also finds a value.
- A package whose name is an inherited property of a plain object (such as `constructor`) would look declared to `installedDeps[pkg]`. The model treats only declared keys as present.
