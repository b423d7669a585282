/** The store provider of src/store/app-state.tsx as an object: it holds the
    current `State`, and every command replaces it through `AppState.Reduce`,
    the way `dispatch` does. Random ids, the random suffix, the random
    password and the contents of local storage are parameters. */
module Provider {
  import opened Prelude
  import opened Slug
  import opened AppState

  /** What local storage held under `app_state_v1` when the provider mounted:
      nothing (or the empty string), text that does not parse as a state, or
      a parsed state. */
  datatype StoredState = Missing | Unparsable | Parsed(state: State)

  /** `{ ok, role?, linkedId? }` returned by `login`. */
  datatype LoginResult = LoginResult(ok: bool, role: Option<Role>, linkedId: Option<string>)

  /** `{ username, password, companyId }` / `{ username, password, applicantId }`. */
  datatype Issued = Issued(username: string, password: string, id: string)

  /** The scan of `login`: looks for a credential whose username and password
      both match exactly. The order of the scan is left open, so with several
      matching credentials any one of them may be found. */
  method FindCredential(credentials: map<string, Credential>, username: string, password: string)
    returns (found: Option<string>)
    ensures found.Some? ==> found.value in credentials && Matches(credentials[found.value], username, password)
    ensures found.None? ==> forall k :: k in credentials ==> !Matches(credentials[k], username, password)
  {
    var remaining := credentials.Keys;
    while remaining != {}
      invariant remaining <= credentials.Keys
      invariant forall k :: k in credentials && k !in remaining ==> !Matches(credentials[k], username, password)
      decreases remaining
    {
      var k :| k in remaining;
      if Matches(credentials[k], username, password) {
        return Some(k);
      }
      remaining := remaining - {k};
    }
    return None;
  }

  /** What `login(username, password)` does to state `s`, giving `r`: it
      succeeds exactly when some credential matches both fields, and then
      the session names a matching credential whose role and linked id are
      returned; on failure nothing changes and nothing is returned. */
  predicate LoginOutcome(s: State, r: State, res: LoginResult, username: string, password: string) {
    && (res.ok <==> CanLogin(s, username, password))
    && (!res.ok ==> r == s && res.role.None? && res.linkedId.None?)
    && (res.ok ==> exists k :: k in s.credentials && LoggedInAs(s, r, res, k, username, password))
  }

  /** The stored credential `k` matches both fields, the state after the
      command is the LOGIN of that credential's own id, and the result
      carries its role and linked id. */
  predicate LoggedInAs(s: State, r: State, res: LoginResult, k: string, username: string, password: string)
    requires k in s.credentials
  {
    var c := s.credentials[k];
    && Matches(c, username, password)
    && r == Reduce(s, AppState.Login(c.id))
    && res == LoginResult(true, Some(c.role), c.linkedId)
  }

  /** Logging in with the pair `createCompany` issued, when no earlier
      credential had that pair, logs in as the new company: role company,
      linked to the new company's id, with its credential current. */
  lemma LoginAsCreatedCompany(s: State, r: State, res: LoginResult, name: string, id: string, credId: string, username: string, password: string)
    requires !CanLogin(s, username, password)
    requires LoginOutcome(AfterCreateCompany(s, name, id, credId, username, password), r, res, username, password)
    ensures res == LoginResult(true, Some(CompanyRole), Some(id))
    ensures r == AfterCreateCompany(s, name, id, credId, username, password).(currentUserId := Some(credId))
  {
    var a := AfterCreateCompany(s, name, id, credId, username, password);
    var cred := NewCompanyCredential(name, id, credId, username, password);
    assert a.credentials[credId] == cred;
    assert Matches(a.credentials[credId], username, password);
    CreatedCompanyOnlyMatch(s, name, id, credId, username, password);
    var k :| k in a.credentials && LoggedInAs(a, r, res, k, username, password);
    assert a.credentials[k] == cred;
  }

  /** Logging in with the pair `createApplicant` issued, when no earlier
      credential had that pair, logs in as the new applicant: role
      applicant, linked to the new applicant's id, with its credential current. */
  lemma LoginAsCreatedApplicant(s: State, r: State, res: LoginResult, companyId: string, name: string, id: string, credId: string, username: string, password: string)
    requires !CanLogin(s, username, password)
    requires LoginOutcome(AfterCreateApplicant(s, companyId, name, id, credId, username, password), r, res, username, password)
    ensures res == LoginResult(true, Some(ApplicantRole), Some(id))
    ensures r == AfterCreateApplicant(s, companyId, name, id, credId, username, password).(currentUserId := Some(credId))
  {
    var a := AfterCreateApplicant(s, companyId, name, id, credId, username, password);
    var cred := NewApplicantCredential(name, id, credId, username, password);
    CreateApplicantSteps(s, companyId, name, id, credId, username, password);
    assert a.credentials[credId] == cred;
    assert Matches(a.credentials[credId], username, password);
    CreatedApplicantOnlyMatch(s, companyId, name, id, credId, username, password);
    var k :| k in a.credentials && LoggedInAs(a, r, res, k, username, password);
    assert a.credentials[k] == cred;
  }

  class Store {
    /** The id `uid()` gave `defaultAdminCredential` when the module loaded. */
    const adminId: string
    var state: State

    /** `useReducer(reducer, defaultState)` */
    constructor (adminId: string)
      ensures this.adminId == adminId && state == DefaultState(adminId)
    {
      this.adminId := adminId;
      state := DefaultState(adminId);
    }

    /** `dispatch(action)` */
    method Dispatch(a: Action)
      modifies this
      ensures state == Reduce(old(state), a)
    {
      state := Reduce(state, a);
    }

    /** The rehydrate effect: a parsed stored state replaces the current one,
        with the default admin re-injected if it lacks an admin named
        "aarnav"; a missing or unparsable one leaves the state as it is. */
    method Rehydrate(stored: StoredState)
      modifies this
      ensures stored.Parsed? ==> state == RepairAdmin(stored.state, adminId) && HasAdmin(state)
      ensures !stored.Parsed? ==> state == old(state)
    {
      if stored.Parsed? {
        var parsed := stored.state;
        var merged := RepairAdmin(parsed, adminId);
        RepairAdminSpec(parsed, adminId);
        Dispatch(SetState(merged));
      }
    }

    /** `currentUser` */
    function CurrentUser(): Option<Credential>
      reads this
    {
      AppState.CurrentUser(state)
    }

    /** `login(username, password)`: succeeds exactly when some credential
        matches both fields; then that credential becomes the session and its
        role and linked id are returned. On failure nothing is dispatched. */
    method Login(username: string, password: string) returns (res: LoginResult)
      modifies this
      ensures LoginOutcome(old(state), state, res, username, password)
    {
      var found := FindCredential(state.credentials, username, password);
      if found.None? {
        return LoginResult(false, None, None);
      }
      var user := state.credentials[found.value];
      ghost var before := state;
      Dispatch(AppState.Login(user.id));
      res := LoginResult(true, Some(user.role), user.linkedId);
      assert LoggedInAs(before, state, res, found.value, username, password);
    }

    /** `logout()` */
    method Logout()
      modifies this
      ensures state == Reduce(old(state), AppState.Logout) && CurrentUser().None?
    {
      Dispatch(AppState.Logout);
    }

    /** `createCompany(name)` with the ids, the suffix and the password drawn
        by the caller: one UPSERT_COMPANY. `CreateCompanyLogin` shows that the
        returned credentials log in, `CreateCompanyKeepsConsistent` that the
        links still agree. */
    method CreateCompany(name: string, id: string, credId: string, n: nat, password: string)
      returns (res: Issued)
      requires 1000 <= n <= 9999 && IsGeneratedPassword(password)
      modifies this
      ensures state == AfterCreateCompany(old(state), name, id, credId, CompanyUsername(name, n), password)
      ensures res == Issued(CompanyUsername(name, n), password, id)
    {
      var uname := CompanyUsername(name, n);
      var credential := Credential(credId, uname, password, CompanyRole, Some(id));
      var company := Company(id, name, "", [], credId);
      Dispatch(UpsertCompany(company, credential));
      res := Issued(uname, password, id);
    }

    /** `createApplicant(companyId, name)`: an UPSERT_APPLICANT, then, when the
        company existed when the call began, an UPSERT_COMPANY built from that
        earlier company record. The links agree again after the method
        (`CreateApplicantKeepsConsistent`), not between the two dispatches
        (`FirstStepBreaksLinks`). */
    method CreateApplicant(companyId: string, name: string, id: string, credId: string, n: nat, password: string)
      returns (res: Issued)
      requires 1000 <= n <= 9999 && IsGeneratedPassword(password)
      modifies this
      ensures state == AfterCreateApplicant(old(state), companyId, name, id, credId, ApplicantUsername(name, n), password)
      ensures res == Issued(ApplicantUsername(name, n), password, id)
    {
      var uname := ApplicantUsername(name, n);
      var credential := Credential(credId, uname, password, ApplicantRole, Some(id));
      var applicant := Applicant(id, name, companyId, "", false, false, [], credId);
      var snapshot := state;  // the `state` the command's closure was created with
      Dispatch(UpsertApplicant(applicant, credential));
      if companyId in snapshot.companies {
        var company := snapshot.companies[companyId];
        var updated := company.(applicants := company.applicants + [id]);
        Dispatch(UpsertCompany(updated, credential));
      }
      res := Issued(uname, password, id);
    }

    /** `saveProforma2(companyId, content)` */
    method SaveProforma2(companyId: string, content: string)
      modifies this
      ensures state == Reduce(old(state), AppState.SaveProforma2(companyId, content))
    {
      Dispatch(AppState.SaveProforma2(companyId, content));
    }

    /** `saveProforma1(applicantId, content)` */
    method SaveProforma1(applicantId: string, content: string)
      modifies this
      ensures state == Reduce(old(state), AppState.SaveProforma1(applicantId, content))
    {
      Dispatch(AppState.SaveProforma1(applicantId, content));
    }

    /** `submitProforma1(applicantId)` */
    method SubmitProforma1(applicantId: string)
      modifies this
      ensures state == Reduce(old(state), AppState.SubmitProforma1(applicantId))
    {
      Dispatch(AppState.SubmitProforma1(applicantId));
    }

    /** `approveApplicant(applicantId)` */
    method ApproveApplicant(applicantId: string)
      modifies this
      ensures state == Reduce(old(state), AppState.ApproveApplicant(applicantId))
    {
      Dispatch(AppState.ApproveApplicant(applicantId));
    }

    /** `setDocumentKit(applicantId, documents)` */
    method SetDocumentKit(applicantId: string, documents: seq<string>)
      modifies this
      ensures state == Reduce(old(state), AppState.SetDocumentKit(applicantId, documents))
    {
      Dispatch(AppState.SetDocumentKit(applicantId, documents));
    }
  }
}
