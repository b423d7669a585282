/** The login form of src/pages/Index.tsx: on submit it logs in with the
    trimmed username and password, and on success records a
    `login_success` event and navigates to the page of the credential's
    role. Navigation is returned as the target path. */
module LoginPage {
  import opened Prelude
  import opened AppState
  import opened Provider
  import opened Analytics
  import opened Auth

  /** Where a successful login leads: "/admin" for an admin, the linked
      company's or applicant's page for the others, nowhere when the login
      failed or the credential has no (or an empty) linked id. */
  function Destination(res: LoginResult): (path: Option<string>)
    ensures path.Some? ==> res.ok && res.role.Some?
    ensures res.ok && res.role == Some(AdminRole) ==> path == Some("/admin")
    ensures res.ok && res.role.Some? && res.role.value != AdminRole ==>
              (path.Some? <==> Truthy(res.linkedId))
    ensures res.ok && res.role == Some(CompanyRole) && Truthy(res.linkedId) ==>
              path == Some(CompanyPath(res.linkedId.value))
    ensures res.ok && res.role == Some(ApplicantRole) && Truthy(res.linkedId) ==>
              path == Some(ApplicantPath(res.linkedId.value))
  {
    if !res.ok || res.role.None? then None
    else match res.role.value
      case AdminRole => Some("/admin")
      case CompanyRole => if Truthy(res.linkedId) then Some(CompanyPath(res.linkedId.value)) else None
      case ApplicantRole => if Truthy(res.linkedId) then Some(ApplicantPath(res.linkedId.value)) else None
  }

  /** The `login_success` event a login records, if any: the actor's role,
      and the linked id as the company or applicant it concerns. */
  function LoginEvent(res: LoginResult): (e: Option<EventInput>)
    ensures e.Some? <==> Destination(res).Some?
    ensures e.Some? ==> e.value.eventType == LoginSuccess && Some(e.value.actorRole) == res.role
                        && e.value.actorId.None? && e.value.timestamp.None?
    ensures e.Some? ==> e.value.companyId == (if res.role == Some(CompanyRole) then res.linkedId else None)
    ensures e.Some? ==> e.value.applicantId == (if res.role == Some(ApplicantRole) then res.linkedId else None)
  {
    if !res.ok || res.role.None? then None
    else match res.role.value
      case AdminRole => Some(EventInput(LoginSuccess, AdminRole, None, None, None, None))
      case CompanyRole =>
        if Truthy(res.linkedId) then Some(EventInput(LoginSuccess, CompanyRole, None, res.linkedId, None, None))
        else None
      case ApplicantRole =>
        if Truthy(res.linkedId) then Some(EventInput(LoginSuccess, ApplicantRole, None, None, res.linkedId, None))
        else None
  }

  /** The form: its two input fields and the store and event log it uses. */
  class LoginForm {
    var username: string
    var password: string
    const store: Store
    const log: EventLog

    constructor (store: Store, log: EventLog)
      ensures this.store == store && this.log == log && username == "" && password == ""
    {
      this.store := store;
      this.log := log;
      username := "";
      password := "";
    }

    /** `onSubmit`, with the new event's id and the current time as parameters. */
    method OnSubmit(eventId: string, now: int) returns (res: LoginResult, nav: Option<string>)
      modifies store, log
      ensures LoginOutcome(old(store.state), store.state, res, Trim(old(username)), Trim(old(password)))
      ensures nav == Destination(res)
      ensures LoginEvent(res).None? ==> log.events == old(log.events)
      ensures LoginEvent(res).Some? ==> log.events == [Complete(LoginEvent(res).value, eventId, now)] + old(log.events)
    {
      res := store.Login(Trim(username), Trim(password));
      if !res.ok {
        return res, None;
      }
      nav := AfterLogin(res, eventId, now);
    }

    /** The three role checks after a successful login: record the
        role's `login_success` event and pick the page to navigate to. */
    method AfterLogin(res: LoginResult, eventId: string, now: int) returns (nav: Option<string>)
      requires res.ok
      modifies log
      ensures nav == Destination(res)
      ensures LoginEvent(res).None? ==> log.events == old(log.events)
      ensures LoginEvent(res).Some? ==> log.events == [Complete(LoginEvent(res).value, eventId, now)] + old(log.events)
    {
      nav := None;
      if res.role == Some(AdminRole) {
        log.RecordEvent(EventInput(LoginSuccess, AdminRole, None, None, None, None), eventId, now);
        nav := Some("/admin");
      }
      if res.role == Some(CompanyRole) && Truthy(res.linkedId) {
        log.RecordEvent(EventInput(LoginSuccess, CompanyRole, None, res.linkedId, None, None), eventId, now);
        nav := Some(CompanyPath(res.linkedId.value));
      }
      if res.role == Some(ApplicantRole) && Truthy(res.linkedId) {
        log.RecordEvent(EventInput(LoginSuccess, ApplicantRole, None, None, res.linkedId, None), eventId, now);
        nav := Some(ApplicantPath(res.linkedId.value));
      }
    }
  }

  /** The route table sends the destination of a login to the guarded page
      of the credential's role: the admin dashboard, or the page of the
      linked company or applicant with the linked id as its parameter,
      provided that id is a single path segment. */
  lemma DestinationRoute(res: LoginResult)
    requires res.linkedId.Some? ==> '/' !in res.linkedId.value
    ensures Destination(res).Some? ==>
      var route := MatchPath(Destination(res).value);
      && GuardOf(route.page) == Guarded(res.role, res.role != Some(AdminRole))
      && (res.role == Some(AdminRole) ==> route == Route(AdminPage, None))
      && (res.role == Some(CompanyRole) ==> route == Route(CompanyPage, res.linkedId))
      && (res.role == Some(ApplicantRole) ==> route == Route(ApplicantPage, res.linkedId))
  {
    if Destination(res).Some? {
      match res.role.value
      case AdminRole => MatchAdminPath();
      case CompanyRole => MatchCompanyPath(res.linkedId.value);
      case ApplicantRole => MatchApplicantPath(res.linkedId.value);
    }
  }

  /** The page a successful login navigates to is guarded by `RequireAuth`,
      and that guard admits the credential that just logged in, provided credentials are stored under their own ids,
      that id is not empty, and the linked id is a single path segment. */
  lemma DestinationAdmitted(s: State, k: string, username: string, password: string)
    requires KeysMatch(s) && k in s.credentials && k != ""
    requires Matches(s.credentials[k], username, password)
    requires var c := s.credentials[k]; c.linkedId.Some? ==> '/' !in c.linkedId.value
    ensures var c := s.credentials[k];
      var res := LoginResult(true, Some(c.role), c.linkedId);
      var after := Reduce(s, AppState.Login(c.id));
      && CurrentUser(after) == Some(c)
      && (Destination(res).Some? ==>
            && GuardOf(MatchPath(Destination(res).value).page).Guarded?
            && Visit(CurrentUser(after), Destination(res).value) == Render)
  {
    var c := s.credentials[k];
    LoginSetsCurrentUser(s, k);
    DestinationRoute(LoginResult(true, Some(c.role), c.linkedId));
    match c.role
    case AdminRole => AdminPageAccess(Some(c));
    case CompanyRole =>
      if Truthy(c.linkedId) {
        CompanyPageAccess(Some(c), c.linkedId.value);
      }
    case ApplicantRole =>
      if Truthy(c.linkedId) {
        ApplicantPagesAccess(Some(c), c.linkedId.value);
      }
  }

  /** A credential stored under the empty id logs in but leaves nobody
      current, because the empty id is falsy: the page it navigates to then
      sends the visitor back to "/". */
  lemma EmptyIdLoginIsLost(s: State, c: Credential)
    requires c.id == "" && "" in s.credentials && s.credentials[""] == c && c.role == AdminRole
    ensures CurrentUser(Reduce(s, AppState.Login(c.id))).None?
    ensures Destination(LoginResult(true, Some(c.role), c.linkedId)) == Some("/admin")
    ensures Visit(CurrentUser(Reduce(s, AppState.Login(c.id))), "/admin") == RedirectToLogin(Some("/admin"))
  {
    MatchAdminPath();
  }
}
