/** The request and response vocabulary shared by the API routes: query
    strings, the next-auth session, and the JSON reply with its status. */
module Http {
  import opened Common

  /** `new URL(request.url).searchParams` (one value per name). */
  type Params = map<string, string>

  /** `searchParams.get(name)`: `null` when the parameter is absent. */
  function Param(q: Params, name: string): (r: Option<string>)
    ensures r.Some? <==> name in q
    ensures r.Some? ==> r.value == q[name]
  {
    if name in q then Some(q[name]) else None
  }

  /** `searchParams.get(name) === value` */
  predicate ParamIs(q: Params, name: string, value: string) {
    name in q && q[name] == value
  }

  /** `request.headers`, by lower-case name. */
  type Headers = map<string, string>

  /** `x-forwarded-for || x-real-ip || 'unknown'`: the first non-empty of
      the two proxy headers, else 'unknown'. */
  function ClientIp(h: Headers): (r: string)
    ensures r != ""
    ensures Truthy(Param(h, "x-forwarded-for")) ==> r == h["x-forwarded-for"]
    ensures !Truthy(Param(h, "x-forwarded-for")) && Truthy(Param(h, "x-real-ip")) ==> r == h["x-real-ip"]
    ensures !Truthy(Param(h, "x-forwarded-for")) && !Truthy(Param(h, "x-real-ip")) ==> r == "unknown"
  {
    OrElse(Param(h, "x-forwarded-for"), OrElse(Param(h, "x-real-ip"), "unknown"))
  }

  /** `user-agent || 'unknown'` */
  function ClientAgent(h: Headers): (r: string)
    ensures r != ""
    ensures Truthy(Param(h, "user-agent")) ==> r == h["user-agent"]
    ensures !Truthy(Param(h, "user-agent")) ==> r == "unknown"
  {
    OrElse(Param(h, "user-agent"), "unknown")
  }

  /** The user part of a next-auth session; `role` is what the session
      callback copied from the token and may be missing. */
  datatype SessionUser = SessionUser(id: Option<string>, email: Option<string>, role: Option<string>)

  datatype Session = Session(user: Option<SessionUser>)

  /** `session && session.user?.role === 'admin'`, the gate of the routes
      that write site content. */
  predicate IsAdmin(session: Option<Session>) {
    session.Some? && session.value.user.Some? && session.value.user.value.role == Some("admin")
  }

  /** A JSON reply: a success body with its status, or `{ error }` with its
      status. */
  datatype Reply<T> = Ok(status: nat, data: T) | Fail(status: nat, error: string)

  const OK: nat := 200
  const CREATED: nat := 201
  const BAD_REQUEST: nat := 400
  const UNAUTHORIZED: nat := 401
  const SERVER_ERROR: nat := 500
}
