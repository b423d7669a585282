/** Route guarding: the route table of src/App.tsx and the decision of
    src/components/auth/RequireAuth.tsx, which either renders the page or
    redirects to "/" (remembering where the visitor came from only when
    nobody is logged in). Paths are matched segment by segment. */
module Auth {
  import opened Prelude
  import opened AppState

  /** `<Navigate to="/" state={{ from }} replace />` or the guarded children. */
  datatype Decision = RedirectToLogin(from: Option<string>) | Render

  /** `RequireAuth({ role, enforceIdMatchFromParam })` for the given current
      user and route parameter `id`, at `location`. */
  function RequireAuth(user: Option<Credential>, role: Option<Role>, enforceIdMatch: bool,
                       paramId: Option<string>, location: string): Decision
  {
    if user.None? then RedirectToLogin(Some(location))
    else if role.Some? && user.value.role != role.value then RedirectToLogin(None)
    else if enforceIdMatch && Truthy(user.value.linkedId) && Truthy(paramId)
            && paramId.value != user.value.linkedId.value
    then RedirectToLogin(None)
    else Render
  }

  /** Only a visitor nobody is logged in as is sent back with the location
      to return to; an admitted visitor has a role the route accepts and,
      where ids are enforced, no linked id that contradicts the parameter. */
  lemma RequireAuthSpec(user: Option<Credential>, role: Option<Role>, enforceIdMatch: bool,
                        paramId: Option<string>, location: string)
    ensures var d := RequireAuth(user, role, enforceIdMatch, paramId, location);
      && (d.RedirectToLogin? && d.from.Some? <==> user.None?)
      && (d.RedirectToLogin? && d.from.Some? ==> d.from.value == location)
      && (d == Render <==>
            && user.Some?
            && (role.Some? ==> user.value.role == role.value)
            && (enforceIdMatch && Truthy(user.value.linkedId) && Truthy(paramId) ==>
                  paramId.value == user.value.linkedId.value))
  {
  }

  // ---------------------------------------------------------------------
  // Paths
  // ---------------------------------------------------------------------

  /** The pieces of `s` between the slashes; there is always at least one. */
  function Split(s: string): (r: seq<string>)
    ensures |r| >= 1
  {
    if s == [] then [""]
    else
      var rest := Split(s[1..]);
      if s[0] == '/' then [""] + rest
      else [[s[0]] + rest[0]] + rest[1..]
  }

  /** The pieces glued back together with slashes between them. */
  function Join(parts: seq<string>): string
    requires |parts| >= 1
  {
    if |parts| == 1 then parts[0] else parts[0] + "/" + Join(parts[1..])
  }

  /** Splitting loses nothing: joining the pieces gives the string back. */
  lemma {:induction false} JoinSplit(s: string)
    ensures Join(Split(s)) == s
  {
    if s != [] {
      var rest := Split(s[1..]);
      JoinSplit(s[1..]);
      if s[0] == '/' {
        assert ([""] + rest)[1..] == rest;
      } else {
        var r := [[s[0]] + rest[0]] + rest[1..];
        if |rest| == 1 {
          assert Join(r) == [s[0]] + rest[0];
        } else {
          assert r[1..] == rest[1..];
          assert Join(rest) == rest[0] + "/" + Join(rest[1..]);
        }
        assert s == [s[0]] + s[1..];
      }
    }
  }

  /** A piece without slashes followed by a slash splits off as one segment. */
  lemma {:induction false} SplitSegment(a: string, b: string)
    requires '/' !in a
    ensures Split(a + "/" + b) == [a] + Split(b)
    decreases |a|
  {
    if a == [] {
      assert a + "/" + b == ['/'] + b;
      assert (['/'] + b)[1..] == b;
    } else {
      assert (a + "/" + b)[1..] == a[1..] + "/" + b;
      SplitSegment(a[1..], b);
      assert [a[0]] + a[1..] == a;
    }
  }

  /** A string without slashes is a single segment. */
  lemma {:induction false} SplitSingle(a: string)
    requires '/' !in a
    ensures Split(a) == [a]
    decreases |a|
  {
    if a != [] {
      SplitSingle(a[1..]);
      assert [a[0]] + a[1..] == a;
    }
  }

  // ---------------------------------------------------------------------
  // The route table
  // ---------------------------------------------------------------------

  datatype Page = LoginPage | AdminPage | CompanyPage | ApplicantPage | ApplicantDocumentsPage | NotFoundPage

  /** A matched page with the value of its `:id` parameter, if it has one. */
  datatype Route = Route(page: Page, param: Option<string>)

  /** How a page is wrapped: not at all, or in `RequireAuth` with a role and
      the id-enforcement flag. */
  datatype Guard = Open | Guarded(role: Option<Role>, enforceIdMatch: bool)

  function GuardOf(p: Page): Guard {
    match p
    case LoginPage => Open
    case AdminPage => Guarded(Some(AdminRole), false)
    case CompanyPage => Guarded(Some(CompanyRole), true)
    case ApplicantPage => Guarded(Some(ApplicantRole), true)
    case ApplicantDocumentsPage => Guarded(Some(ApplicantRole), true)
    case NotFoundPage => Open
  }

  /** The route a path selects: "/", "/admin", "/company/:id",
      "/applicant/:id", "/applicant/:id/documents", and "*" for the rest. A
      `:id` matches one non-empty segment. */
  function MatchPath(path: string): Route {
    if path == [] || path[0] != '/' then Route(NotFoundPage, None)
    else MatchSegments(Split(path[1..]))
  }

  /** The route the segments after the leading slash select. */
  function MatchSegments(segs: seq<string>): Route {
    if segs == [""] then Route(LoginPage, None)
    else if segs == ["admin"] then Route(AdminPage, None)
    else if |segs| == 2 && segs[0] == "company" && segs[1] != "" then Route(CompanyPage, Some(segs[1]))
    else if |segs| == 2 && segs[0] == "applicant" && segs[1] != "" then Route(ApplicantPage, Some(segs[1]))
    else if |segs| == 3 && segs[0] == "applicant" && segs[1] != "" && segs[2] == "documents"
    then Route(ApplicantDocumentsPage, Some(segs[1]))
    else Route(NotFoundPage, None)
  }

  /** What the router shows at `path` for the current user. */
  function Visit(user: Option<Credential>, path: string): Decision {
    var route := MatchPath(path);
    match GuardOf(route.page)
    case Open => Render
    case Guarded(role, enforce) => RequireAuth(user, role, enforce, route.param, path)
  }

  /** Where a company's pages live. */
  function CompanyPath(id: string): string {
    "/company/" + id
  }

  function ApplicantPath(id: string): string {
    "/applicant/" + id
  }

  function ApplicantDocumentsPath(id: string): string {
    "/applicant/" + id + "/documents"
  }

  /** "/" selects the login page. */
  lemma MatchLoginPath()
    ensures MatchPath("/") == Route(LoginPage, None)
  {
    assert "/"[1..] == "";
  }

  /** "/admin" selects the admin dashboard. */
  lemma MatchAdminPath()
    ensures MatchPath("/admin") == Route(AdminPage, None)
  {
    assert "/admin"[1..] == "admin";
    SplitSingle("admin");
  }

  /** A company's path selects the company page with its id, as long as the
      id is a non-empty single segment. */
  lemma MatchCompanyPath(id: string)
    requires id != "" && '/' !in id
    ensures MatchPath(CompanyPath(id)) == Route(CompanyPage, Some(id))
  {
    assert CompanyPath(id)[1..] == "company" + "/" + id;
    SplitSegment("company", id);
    SplitSingle(id);
  }

  /** An applicant's path selects the applicant dashboard with its id. */
  lemma MatchApplicantPath(id: string)
    requires id != "" && '/' !in id
    ensures MatchPath(ApplicantPath(id)) == Route(ApplicantPage, Some(id))
  {
    assert ApplicantPath(id)[1..] == "applicant" + "/" + id;
    SplitSegment("applicant", id);
    SplitSingle(id);
  }

  /** An applicant's documents path selects the documents page with its id. */
  lemma MatchApplicantDocumentsPath(id: string)
    requires id != "" && '/' !in id
    ensures MatchPath(ApplicantDocumentsPath(id)) == Route(ApplicantDocumentsPage, Some(id))
  {
    SplitDocumentsPath(id);
    var segs := ["applicant", id, "documents"];
    assert segs != [""] && segs != ["admin"];
  }

  lemma SplitDocumentsPath(id: string)
    requires id != "" && '/' !in id
    ensures ApplicantDocumentsPath(id) != [] && ApplicantDocumentsPath(id)[0] == '/'
    ensures Split(ApplicantDocumentsPath(id)[1..]) == ["applicant", id, "documents"]
  {
    var tail := id + "/" + "documents";
    DocumentsPathTail(id);
    SplitIdDocuments(id);
    assert '/' !in "applicant";
    SplitSegment("applicant", tail);
  }

  lemma SplitIdDocuments(id: string)
    requires '/' !in id
    ensures Split(id + "/" + "documents") == [id, "documents"]
  {
    SplitSegment(id, "documents");
    SplitSingle("documents");
  }

  lemma DocumentsPathTail(id: string)
    ensures ApplicantDocumentsPath(id) != [] && ApplicantDocumentsPath(id)[0] == '/'
    ensures ApplicantDocumentsPath(id)[1..] == "applicant" + "/" + (id + "/" + "documents")
  {
    assert ApplicantDocumentsPath(id) == "/" + ("applicant" + "/" + (id + "/" + "documents"));
  }

  /** The "Open Proforma 1" and "Open Proforma 2" links of the dashboards
      lead to paths the route table does not know: they select `NotFound`. */
  lemma ProformaLinksNotFound(id: string)
    requires '/' !in id
    ensures MatchPath("/applicant/" + id + "/proforma-1") == Route(NotFoundPage, None)
    ensures MatchPath("/company/" + id + "/proforma-2") == Route(NotFoundPage, None)
  {
    assert '/' !in "applicant" && '/' !in "company";
    assert '/' !in "proforma-1" && '/' !in "proforma-2";
    assert "proforma-1" != "documents" && "proforma-2" != "documents";
    ThreeSegmentsNotFound("applicant", id, "proforma-1");
    assert "/applicant/" + id + "/proforma-1" == "/" + "applicant" + "/" + id + "/" + "proforma-1";
    ThreeSegmentsNotFound("company", id, "proforma-2");
    assert "/company/" + id + "/proforma-2" == "/" + "company" + "/" + id + "/" + "proforma-2";
  }

  /** Three segments whose last is not "documents" select `NotFound`. */
  lemma ThreeSegmentsNotFound(a: string, b: string, c: string)
    requires '/' !in a && '/' !in b && '/' !in c && c != "documents"
    ensures MatchPath("/" + a + "/" + b + "/" + c) == Route(NotFoundPage, None)
  {
    SegmentsAfterSlash(a, b, c);
  }

  /** A path of three slash-free segments splits into those segments. */
  lemma SegmentsAfterSlash(a: string, b: string, c: string)
    requires '/' !in a && '/' !in b && '/' !in c
    ensures var p := "/" + a + "/" + b + "/" + c;
      p[0] == '/' && Split(p[1..]) == [a, b, c]
  {
    var p := "/" + a + "/" + b + "/" + c;
    assert p[1..] == a + "/" + (b + "/" + c);
    SplitSegment(a, b + "/" + c);
    SplitSegment(b, c);
    SplitSingle(c);
  }

  /** The admin dashboard renders exactly for a logged-in admin. */
  lemma AdminPageAccess(user: Option<Credential>)
    ensures Visit(user, "/admin") == Render <==> user.Some? && user.value.role == AdminRole
  {
    MatchAdminPath();
  }

  /** A company page renders exactly for a logged-in company whose linked id
      is the page's id, or which has no (or an empty) linked id at all. */
  lemma CompanyPageAccess(user: Option<Credential>, id: string)
    requires id != "" && '/' !in id
    ensures Visit(user, CompanyPath(id)) == Render <==>
      && user.Some? && user.value.role == CompanyRole
      && (Truthy(user.value.linkedId) ==> user.value.linkedId.value == id)
  {
    MatchCompanyPath(id);
  }

  /** Both applicant pages render exactly for a logged-in applicant whose
      linked id is the page's id, or which has no (or an empty) linked id. */
  lemma ApplicantPagesAccess(user: Option<Credential>, id: string)
    requires id != "" && '/' !in id
    ensures Visit(user, ApplicantPath(id)) == Render <==>
      && user.Some? && user.value.role == ApplicantRole
      && (Truthy(user.value.linkedId) ==> user.value.linkedId.value == id)
    ensures Visit(user, ApplicantDocumentsPath(id)) == Visit(user, ApplicantPath(id))
            || (user.None? && Visit(user, ApplicantPath(id)).RedirectToLogin?)
  {
    MatchApplicantPath(id);
    MatchApplicantDocumentsPath(id);
  }

  /** A visitor nobody is logged in as reaching a guarded page is sent to
      "/" carrying the path they asked for. */
  lemma GuestRemembersLocation(path: string)
    requires GuardOf(MatchPath(path).page).Guarded?
    ensures Visit(None, path) == RedirectToLogin(Some(path))
  {
  }

  /** The applicant linked to "42" sees its own pages and is turned away
      from applicant "43", without a location to return to. */
  lemma ApplicantFortyTwo(c: Credential)
    requires c.role == ApplicantRole && c.linkedId == Some("42")
    ensures Visit(Some(c), ApplicantPath("42")) == Render
    ensures Visit(Some(c), ApplicantDocumentsPath("42")) == Render
    ensures Visit(Some(c), ApplicantPath("43")) == RedirectToLogin(None)
    ensures Visit(Some(c), CompanyPath("42")) == RedirectToLogin(None)
  {
    ApplicantPagesAccess(Some(c), "42");
    ApplicantPagesAccess(Some(c), "43");
    CompanyPageAccess(Some(c), "42");
  }
}
