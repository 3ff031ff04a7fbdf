/**
 * The role a web session acts under: the role claim read from the decoded
 * token payload, normalised to one string, and the dashboard it leads to.
 * Verifying and decoding the token is not modelled; its outcome is an
 * input (`None` when the cookie is missing or the token does not verify).
 */
module WebAuth {
  import opened Wrappers
  import opened Json

  /** `_normalize_role`: a string stands for itself, a non-empty list for its first element if that is a string. */
  function NormalizeRole(v: Json): (r: Option<string>)
    ensures r.Some? <==> v.JStr? || (v.JArr? && v.items != [] && v.items[0].JStr?)
    ensures v.JStr? ==> r == Some(v.s)
    ensures v.JArr? && v.items != [] && v.items[0].JStr? ==> r == Some(v.items[0].s)
  {
    match v
    case JNull => None
    case JStr(s) => Some(s)
    case JArr(items) => if items != [] && items[0].JStr? then Some(items[0].s) else None
    case _ => None
  }

  /** The role claim: the first truthy of "role", "user_role" and "roles", else the last of them. */
  function RoleClaim(payload: map<string, Json>): Json {
    Or(Or(Get(payload, "role"), Get(payload, "user_role")), Get(payload, "roles"))
  }

  /** The session user `get_current_user_from_cookie` builds. */
  datatype WebUser = WebUser(email: Json, role: Option<string>)

  /** `get_current_user_from_cookie`, given the payload the token decoded to, if it did. */
  function CurrentUser(payload: Option<map<string, Json>>): Option<WebUser> {
    if payload.None? then None
    else
      var p := payload.value;
      Some(WebUser(Or(Get(p, "sub"), Get(p, "email")), NormalizeRole(RoleClaim(p))))
  }

  const LoginUrl := "/login"
  const InstructorDashboard := "/web/instructor/dashboard"
  const StudentDashboard := "/web/student/dashboard"

  /** `dashboard`: the URL it redirects to. */
  function Dashboard(user: Option<WebUser>): (url: string)
    ensures url == InstructorDashboard <==> user.Some? && user.value.role == Some("instructor")
    ensures url == StudentDashboard <==> user.Some? && user.value.role == Some("student")
    ensures url in {LoginUrl, InstructorDashboard, StudentDashboard}
  {
    if user.None? then LoginUrl
    else if user.value.role == Some("instructor") then InstructorDashboard
    else if user.value.role == Some("student") then StudentDashboard
    else LoginUrl
  }

  /** The claims that give no role: null, an empty or non-string-led list, and every other type. */
  lemma NoRoleCases(v: Json)
    ensures v.JNull? || v.JBool? || v.JInt? || v.JFloat? || v.JObj? ==> NormalizeRole(v).None?
    ensures v == JArr([]) ==> NormalizeRole(v).None?
  {
  }

  /**
   * The role comes from "role" when that claim is truthy, else from
   * "user_role" when truthy, else from "roles"; a later claim never
   * overrides an earlier truthy one.
   */
  lemma RoleClaimPrecedence(p: map<string, Json>)
    ensures Truthy(Get(p, "role")) ==> RoleClaim(p) == p["role"]
    ensures !Truthy(Get(p, "role")) && Truthy(Get(p, "user_role")) ==> RoleClaim(p) == p["user_role"]
    ensures !Truthy(Get(p, "role")) && !Truthy(Get(p, "user_role")) ==> RoleClaim(p) == Get(p, "roles")
  {
  }

  /**
   * An empty "role" string falls through to the next claim, so a payload
   * `{"role": "", "roles": ["instructor"]}` logs in as an instructor.
   */
  lemma EmptyRoleFallsThrough(p: map<string, Json>, role: string)
    requires p == map["role" := JStr(""), "roles" := JArr([JStr(role)])]
    ensures CurrentUser(Some(p)).value.role == Some(role)
  {
    assert Get(p, "user_role") == JNull;
  }

  /**
   * Only a session whose role is exactly "instructor" or "student" reaches
   * a dashboard: no session, a missing role and any other role go to the
   * login page.
   */
  lemma DashboardOnlyForKnownRoles(payload: Option<map<string, Json>>)
    ensures var user := CurrentUser(payload);
            Dashboard(user) != LoginUrl <==> user.Some? && user.value.role in {Some("instructor"), Some("student")}
  {
  }
}
