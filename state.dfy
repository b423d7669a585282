/** The client-side workflow store of src/store/app-state.tsx as values: the
    three record kinds, the aggregate `State`, the closed set of `Action`s,
    the pure `Reduce` transition, the bootstrap state and its admin repair,
    and the effect of each provider command as a function of the state
    before it. The object that holds the state and runs the commands is
    `Provider.Store`. */
module AppState {
  import opened Prelude
  import opened Slug

  datatype Credential = Credential(
    id: string,
    username: string,
    password: string,
    role: Role,
    linkedId: Option<string>)  // the company id or applicant id it belongs to

  datatype Company = Company(
    id: string,
    name: string,
    proforma2: string,
    applicants: seq<string>,   // applicant ids
    credentialsId: string)

  datatype Applicant = Applicant(
    id: string,
    name: string,
    companyId: string,
    proforma1: string,
    submitted: bool,
    approved: bool,
    documents: seq<string>,    // names of the documents in the kit
    credentialsId: string)

  datatype State = State(
    credentials: map<string, Credential>,
    companies: map<string, Company>,
    applicants: map<string, Applicant>,
    currentUserId: Option<string>)

  datatype Action =
    | Login(userId: string)
    | Logout
    | SetState(state: State)
    | UpsertCompany(company: Company, credential: Credential)
    | UpsertApplicant(applicant: Applicant, credential: Credential)
    | SaveProforma2(companyId: string, content: string)
    | SaveProforma1(applicantId: string, content: string)
    | SubmitProforma1(applicantId: string)
    | ApproveApplicant(applicantId: string)
    | SetDocumentKit(applicantId: string, documents: seq<string>)

  /** The five commands that address one existing record by id. */
  predicate IsTargeted(a: Action) {
    a.SaveProforma2? || a.SaveProforma1? || a.SubmitProforma1? || a.ApproveApplicant? || a.SetDocumentKit?
  }

  /** The record a targeted command addresses exists. */
  predicate TargetKnown(s: State, a: Action)
    requires IsTargeted(a)
  {
    if a.SaveProforma2? then a.companyId in s.companies else a.applicantId in s.applicants
  }

  /** `reducer(state, action)`. Only LOGIN, LOGOUT and SET_STATE move the
      session (`currentUserId`), and apart from SET_STATE no command removes a record. */
  function Reduce(s: State, a: Action): (r: State)
    ensures !a.Login? && !a.Logout? && !a.SetState? ==> r.currentUserId == s.currentUserId
    ensures !a.SetState? ==>
      && s.credentials.Keys <= r.credentials.Keys
      && s.companies.Keys <= r.companies.Keys
      && s.applicants.Keys <= r.applicants.Keys
  {
    match a
    case Login(userId) => s.(currentUserId := Some(userId))
    case Logout => s.(currentUserId := None)
    case SetState(state) => state
    case UpsertCompany(company, credential) =>
      s.(credentials := s.credentials[credential.id := credential],
         companies := s.companies[company.id := company])
    case UpsertApplicant(applicant, credential) =>
      s.(credentials := s.credentials[credential.id := credential],
         applicants := s.applicants[applicant.id := applicant])
    case SaveProforma2(companyId, content) =>
      if companyId !in s.companies then s
      else
        var c := s.companies[companyId];
        s.(companies := s.companies[c.id := c.(proforma2 := content)])
    case SaveProforma1(applicantId, content) =>
      if applicantId !in s.applicants then s
      else
        var ap := s.applicants[applicantId];
        s.(applicants := s.applicants[ap.id := ap.(proforma1 := content)])
    case SubmitProforma1(applicantId) =>
      if applicantId !in s.applicants then s
      else
        var ap := s.applicants[applicantId];
        s.(applicants := s.applicants[ap.id := ap.(submitted := true)])
    case ApproveApplicant(applicantId) =>
      if applicantId !in s.applicants then s
      else
        var ap := s.applicants[applicantId];
        s.(applicants := s.applicants[ap.id := ap.(approved := true)])
    case SetDocumentKit(applicantId, documents) =>
      if applicantId !in s.applicants then s
      else
        var ap := s.applicants[applicantId];
        s.(applicants := s.applicants[ap.id := ap.(documents := documents)])
  }

  // ---------------------------------------------------------------------
  // Well-formed states
  // ---------------------------------------------------------------------

  /** Every record is stored under its own id. */
  predicate KeysMatch(s: State) {
    && (forall k :: k in s.credentials ==> s.credentials[k].id == k)
    && (forall k :: k in s.companies ==> s.companies[k].id == k)
    && (forall k :: k in s.applicants ==> s.applicants[k].id == k)
  }

  /** `Company.applicants` and `Applicant.companyId` agree: a company lists
      exactly the applicants that point back at it, each once. An applicant
      whose company does not exist is listed nowhere. */
  predicate Linked(s: State) {
    && (forall c, i :: c in s.companies && i in s.companies[c].applicants ==>
          i in s.applicants && s.applicants[i].companyId == c)
    && (forall i :: i in s.applicants && s.applicants[i].companyId in s.companies ==>
          i in s.companies[s.applicants[i].companyId].applicants)
    && (forall c :: c in s.companies ==> NoDup(s.companies[c].applicants))
  }

  predicate Consistent(s: State) {
    KeysMatch(s) && Linked(s)
  }

  /** What a fresh `uid()` is assumed to be: an id nothing in the state uses. */
  predicate Fresh(s: State, id: string) {
    && id !in s.credentials && id !in s.companies && id !in s.applicants
    && (forall i :: i in s.applicants ==> s.applicants[i].companyId != id)
  }

  // ---------------------------------------------------------------------
  // The session
  // ---------------------------------------------------------------------

  /** `state.currentUserId ? state.credentials[state.currentUserId] : undefined` */
  function CurrentUser(s: State): (u: Option<Credential>)
    ensures u.Some? <==> Truthy(s.currentUserId) && s.currentUserId.value in s.credentials
    ensures u.Some? ==> u.value == s.credentials[s.currentUserId.value]
  {
    if Truthy(s.currentUserId) && s.currentUserId.value in s.credentials
    then Some(s.credentials[s.currentUserId.value])
    else None
  }

  /** The exact, case-sensitive comparison `login` scans with. */
  predicate Matches(c: Credential, username: string, password: string) {
    c.username == username && c.password == password
  }

  /** Some credential matches both fields: `login` succeeds. */
  predicate CanLogin(s: State, username: string, password: string) {
    exists k :: k in s.credentials && Matches(s.credentials[k], username, password)
  }

  /** LOGIN of a stored credential makes it the current user; nothing else changes. */
  lemma LoginSetsCurrentUser(s: State, id: string)
    requires id in s.credentials && id != ""
    ensures CurrentUser(Reduce(s, Login(id))) == Some(s.credentials[id])
    ensures Reduce(s, Login(id)).(currentUserId := s.currentUserId) == s
  {
  }

  /** LOGOUT leaves nobody logged in, and a second LOGOUT changes nothing. */
  lemma LogoutIdempotent(s: State)
    ensures CurrentUser(Reduce(s, Logout)).None?
    ensures Reduce(Reduce(s, Logout), Logout) == Reduce(s, Logout)
    ensures Reduce(s, Logout).(currentUserId := s.currentUserId) == s
  {
  }

  // ---------------------------------------------------------------------
  // Bootstrap and rehydration
  // ---------------------------------------------------------------------

  const AdminUsername := "aarnav"
  const AdminPassword := "aarnav"

  /** `defaultAdminCredential`, whose id is drawn once when the module loads. */
  function DefaultAdmin(adminId: string): Credential {
    Credential(adminId, AdminUsername, AdminPassword, AdminRole, None)
  }

  /** `defaultState` */
  function DefaultState(adminId: string): State {
    State(map[adminId := DefaultAdmin(adminId)], map[], map[], None)
  }

  /** The startup state holds exactly one credential, the default admin, no
      companies or applicants, nobody logged in, and admin/admin logs in. */
  lemma DefaultStateBootstrap(adminId: string)
    ensures var s := DefaultState(adminId);
      && |s.credentials| == 1
      && (forall k :: k in s.credentials ==>
            s.credentials[k].role == AdminRole && s.credentials[k].username == AdminUsername)
      && s.companies == map[] && s.applicants == map[] && CurrentUser(s).None?
      && Consistent(s)
      && CanLogin(s, AdminUsername, AdminPassword)
  {
    var s := DefaultState(adminId);
    assert s.credentials.Keys == {adminId};
    assert Matches(s.credentials[adminId], AdminUsername, AdminPassword);
  }

  /** Some credential is the admin named "aarnav". */
  predicate HasAdmin(s: State) {
    exists k :: k in s.credentials && s.credentials[k].role == AdminRole
                && s.credentials[k].username == AdminUsername
  }

  /** The rehydration repair rule: keep a parsed state that has the admin,
      otherwise add the default admin to its credentials. */
  function RepairAdmin(parsed: State, adminId: string): State {
    if HasAdmin(parsed) then parsed
    else parsed.(credentials := parsed.credentials[adminId := DefaultAdmin(adminId)])
  }

  /** After the repair the admin is present; a state that had it is used
      unchanged; otherwise only the default admin's entry is added, every
      other credential, both record maps and the session are kept; repairing
      twice is repairing once. */
  lemma RepairAdminSpec(parsed: State, adminId: string)
    ensures var r := RepairAdmin(parsed, adminId);
      && HasAdmin(r)
      && (HasAdmin(parsed) ==> r == parsed)
      && (!HasAdmin(parsed) ==>
            && r.credentials.Keys == parsed.credentials.Keys + {adminId}
            && r.credentials[adminId] == DefaultAdmin(adminId)
            && (forall k :: k in parsed.credentials && k != adminId ==> r.credentials[k] == parsed.credentials[k])
            && r.companies == parsed.companies && r.applicants == parsed.applicants
            && r.currentUserId == parsed.currentUserId)
      && RepairAdmin(r, adminId) == r
  {
    var r := RepairAdmin(parsed, adminId);
    if !HasAdmin(parsed) {
      assert adminId in r.credentials && r.credentials[adminId].role == AdminRole
             && r.credentials[adminId].username == AdminUsername;
    }
  }

  // ---------------------------------------------------------------------
  // The five targeted commands
  // ---------------------------------------------------------------------

  /** A targeted command on an unknown id returns the state unchanged. */
  lemma UnknownTargetIsNoOp(s: State, a: Action)
    requires IsTargeted(a) && !TargetKnown(s, a)
    ensures Reduce(s, a) == s
  {
  }

  /** `r` differs from `s` at most in the company stored under `id`. */
  predicate OnlyCompanyChanged(s: State, r: State, id: string) {
    && r.credentials == s.credentials && r.applicants == s.applicants
    && r.currentUserId == s.currentUserId
    && r.companies.Keys == s.companies.Keys
    && forall k :: k in s.companies && k != id ==> r.companies[k] == s.companies[k]
  }

  /** `r` differs from `s` at most in the applicant stored under `id`. */
  predicate OnlyApplicantChanged(s: State, r: State, id: string) {
    && r.credentials == s.credentials && r.companies == s.companies
    && r.currentUserId == s.currentUserId
    && r.applicants.Keys == s.applicants.Keys
    && forall k :: k in s.applicants && k != id ==> r.applicants[k] == s.applicants[k]
  }

  /** SAVE_PROFORMA2 on a known company overwrites its `proforma2` and nothing else. */
  lemma SaveProforma2Frame(s: State, id: string, content: string)
    requires KeysMatch(s) && id in s.companies
    ensures var r := Reduce(s, SaveProforma2(id, content));
      OnlyCompanyChanged(s, r, id) && r.companies[id] == s.companies[id].(proforma2 := content)
  {
  }

  /** SAVE_PROFORMA1 on a known applicant overwrites its `proforma1` and nothing else. */
  lemma SaveProforma1Frame(s: State, id: string, content: string)
    requires KeysMatch(s) && id in s.applicants
    ensures var r := Reduce(s, SaveProforma1(id, content));
      OnlyApplicantChanged(s, r, id) && r.applicants[id] == s.applicants[id].(proforma1 := content)
  {
  }

  /** SUBMIT_PROFORMA1 on a known applicant sets `submitted` and nothing else. */
  lemma SubmitFrame(s: State, id: string)
    requires KeysMatch(s) && id in s.applicants
    ensures var r := Reduce(s, SubmitProforma1(id));
      OnlyApplicantChanged(s, r, id) && r.applicants[id] == s.applicants[id].(submitted := true)
  {
  }

  /** APPROVE_APPLICANT on a known applicant sets `approved` and nothing else;
      it does not look at `submitted`, so a draft can be approved. */
  lemma ApproveFrame(s: State, id: string)
    requires KeysMatch(s) && id in s.applicants
    ensures var r := Reduce(s, ApproveApplicant(id));
      && OnlyApplicantChanged(s, r, id) && r.applicants[id] == s.applicants[id].(approved := true)
      && (!s.applicants[id].submitted ==> r.applicants[id].approved && !r.applicants[id].submitted)
  {
  }

  /** SET_DOCUMENT_KIT on a known applicant replaces `documents` and nothing else. */
  lemma SetDocumentKitFrame(s: State, id: string, docs: seq<string>)
    requires KeysMatch(s) && id in s.applicants
    ensures var r := Reduce(s, SetDocumentKit(id, docs));
      OnlyApplicantChanged(s, r, id) && r.applicants[id] == s.applicants[id].(documents := docs)
  {
  }

  /** The targeted commands keep a consistent state consistent. */
  lemma TargetedKeepsConsistent(s: State, a: Action)
    requires Consistent(s) && IsTargeted(a)
    ensures Consistent(Reduce(s, a))
  {
    var r := Reduce(s, a);
    match a
    case SaveProforma2(id, content) =>
      if id in s.companies {
        SaveProforma2Frame(s, id, content);
        CompanyEditKeepsConsistent(s, r, id);
      }
    case SaveProforma1(id, content) =>
      if id in s.applicants {
        SaveProforma1Frame(s, id, content);
        ApplicantEditKeepsConsistent(s, r, id);
      }
    case SubmitProforma1(id) =>
      if id in s.applicants {
        SubmitFrame(s, id);
        ApplicantEditKeepsConsistent(s, r, id);
      }
    case ApproveApplicant(id) =>
      if id in s.applicants {
        ApproveFrame(s, id);
        ApplicantEditKeepsConsistent(s, r, id);
      }
    case SetDocumentKit(id, kit) =>
      if id in s.applicants {
        SetDocumentKitFrame(s, id, kit);
        ApplicantEditKeepsConsistent(s, r, id);
      }
  }

  /** Changing one company's fields other than its id and its applicant list
      keeps a consistent state consistent. */
  lemma CompanyEditKeepsConsistent(s: State, r: State, id: string)
    requires Consistent(s) && OnlyCompanyChanged(s, r, id) && id in s.companies
    requires r.companies[id].id == id && r.companies[id].applicants == s.companies[id].applicants
    ensures Consistent(r)
  {
    forall c | c in r.companies
      ensures r.companies[c].id == c && r.companies[c].applicants == s.companies[c].applicants
    {
      if c != id {
        assert r.companies[c] == s.companies[c];
      }
    }
    SameLinksKeepLinked(s, r);
  }

  /** Changing one applicant's fields other than its id and its company keeps
      a consistent state consistent. */
  lemma ApplicantEditKeepsConsistent(s: State, r: State, id: string)
    requires Consistent(s) && OnlyApplicantChanged(s, r, id) && id in s.applicants
    requires r.applicants[id].id == id && r.applicants[id].companyId == s.applicants[id].companyId
    ensures Consistent(r)
  {
    forall i | i in r.applicants
      ensures r.applicants[i].id == i && r.applicants[i].companyId == s.applicants[i].companyId
    {
      if i != id {
        assert r.applicants[i] == s.applicants[i];
      }
    }
    SameLinksKeepLinked(s, r);
  }

  /** Two states with the same company and applicant keys, the same company
      lists and the same applicant companies are linked alike. */
  lemma SameLinksKeepLinked(s: State, r: State)
    requires Linked(s)
    requires r.companies.Keys == s.companies.Keys && r.applicants.Keys == s.applicants.Keys
    requires forall c :: c in r.companies ==> r.companies[c].applicants == s.companies[c].applicants
    requires forall i :: i in r.applicants ==> r.applicants[i].companyId == s.applicants[i].companyId
    ensures Linked(r)
  {
    forall c, i | c in r.companies && i in r.companies[c].applicants
      ensures i in r.applicants && r.applicants[i].companyId == c
    {
      assert i in s.companies[c].applicants;
    }
    forall i | i in r.applicants && r.applicants[i].companyId in r.companies
      ensures i in r.companies[r.applicants[i].companyId].applicants
    {
      var c := s.applicants[i].companyId;
      assert i in s.companies[c].applicants;
    }
    forall c | c in r.companies
      ensures NoDup(r.companies[c].applicants)
    {
      assert NoDup(s.companies[c].applicants);
    }
  }

  /** Submitting twice is submitting once. */
  lemma SubmitIdempotent(s: State, id: string)
    ensures Reduce(Reduce(s, SubmitProforma1(id)), SubmitProforma1(id)) == Reduce(s, SubmitProforma1(id))
  {
    if id in s.applicants {
      var ap := s.applicants[id];
      var r := Reduce(s, SubmitProforma1(id));
      if ap.id == id {
        assert r.applicants[id] == ap.(submitted := true);
        assert r.applicants[id := r.applicants[id].(submitted := true)] == r.applicants;
      }
    }
  }

  /** A kit replaces the previous one wholesale: the second kit wins, with no
      merge and no de-duplication. */
  lemma KitReplaces(s: State, id: string, first: seq<string>, second: seq<string>)
    requires KeysMatch(s)
    ensures Reduce(Reduce(s, SetDocumentKit(id, first)), SetDocumentKit(id, second))
            == Reduce(s, SetDocumentKit(id, second))
    ensures id in s.applicants ==>
            Reduce(Reduce(s, SetDocumentKit(id, first)), SetDocumentKit(id, second)).applicants[id].documents == second
  {
    if id in s.applicants {
      var ap := s.applicants[id];
      assert Reduce(s, SetDocumentKit(id, first)).applicants[id] == ap.(documents := first);
    }
  }

  /** `submitted` and `approved` only ever become true, except through
      SET_STATE or an UPSERT_APPLICANT that overwrites that same applicant. */
  lemma FlagsMonotone(s: State, a: Action, id: string)
    requires KeysMatch(s) && id in s.applicants
    requires !a.SetState?
    requires a.UpsertApplicant? ==> a.applicant.id != id
    ensures var r := Reduce(s, a);
      && id in r.applicants
      && (s.applicants[id].submitted ==> r.applicants[id].submitted)
      && (s.applicants[id].approved ==> r.applicants[id].approved)
  {
  }

  /** An UPSERT_APPLICANT that overwrites an existing applicant can reset its flags. */
  lemma UpsertCanResetFlags(s: State, cred: Credential, id: string)
    requires id in s.applicants && s.applicants[id].submitted && s.applicants[id].approved
    ensures var ap := s.applicants[id].(id := id, submitted := false, approved := false);
      var r := Reduce(s, UpsertApplicant(ap, cred));
      !r.applicants[id].submitted && !r.applicants[id].approved
  {
  }

  // ---------------------------------------------------------------------
  // createCompany
  // ---------------------------------------------------------------------

  /** The company record `createCompany` builds. */
  function NewCompany(name: string, id: string, credId: string): Company {
    Company(id, name, "", [], credId)
  }

  /** The credential `createCompany` builds. */
  function NewCompanyCredential(name: string, id: string, credId: string, username: string, password: string): Credential {
    Credential(credId, username, password, CompanyRole, Some(id))
  }

  /** The state after `createCompany`: one UPSERT_COMPANY. */
  function AfterCreateCompany(s: State, name: string, id: string, credId: string, username: string, password: string): State {
    Reduce(s, UpsertCompany(NewCompany(name, id, credId), NewCompanyCredential(name, id, credId, username, password)))
  }

  /** With ids not in use, `createCompany` adds exactly one company and one
      credential: an empty company owning the credential, and a company
      credential linked back to it; every other record and the session are kept. */
  lemma CreateCompanyRecords(s: State, name: string, id: string, credId: string, username: string, password: string)
    requires id !in s.companies && credId !in s.credentials
    ensures var r := AfterCreateCompany(s, name, id, credId, username, password);
      && r.companies.Keys == s.companies.Keys + {id} && |r.companies| == |s.companies| + 1
      && r.credentials.Keys == s.credentials.Keys + {credId} && |r.credentials| == |s.credentials| + 1
      && (forall k :: k in s.companies ==> r.companies[k] == s.companies[k])
      && (forall k :: k in s.credentials ==> r.credentials[k] == s.credentials[k])
      && r.companies[id].proforma2 == "" && r.companies[id].applicants == []
      && r.companies[id].credentialsId == credId && r.companies[id].name == name
      && r.credentials[credId].role == CompanyRole && r.credentials[credId].linkedId == Some(id)
      && r.applicants == s.applicants && r.currentUserId == s.currentUserId
  {
    var r := AfterCreateCompany(s, name, id, credId, username, password);
    var company, credential := NewCompany(name, id, credId), NewCompanyCredential(name, id, credId, username, password);
    assert r == s.(credentials := s.credentials[credId := credential], companies := s.companies[id := company]);
    AddKeyGrows(s.companies, id, company);
    AddKeyGrows(s.credentials, credId, credential);
    assert r.companies[id] == company && r.credentials[credId] == credential;
  }

  /** The company credential's username is `fc-<slug of the name>-<n>`, and
      logging in with it and the generated password succeeds; when no
      earlier credential had that pair, the new company credential is the
      only one that matches. */
  lemma CreateCompanyLogin(s: State, name: string, id: string, credId: string, n: nat, password: string)
    requires 1000 <= n <= 9999
    ensures var r := AfterCreateCompany(s, name, id, credId, CompanyUsername(name, n), password);
      && ParseUsername(r.credentials[credId].username) == Some(("fc-", Slugify(name), n))
      && CanLogin(r, CompanyUsername(name, n), password)
      && (!CanLogin(s, CompanyUsername(name, n), password) ==>
            forall k :: k in r.credentials && Matches(r.credentials[k], CompanyUsername(name, n), password) ==>
              r.credentials[k] == NewCompanyCredential(name, id, credId, CompanyUsername(name, n), password))
  {
    var username := CompanyUsername(name, n);
    var r := AfterCreateCompany(s, name, id, credId, username, password);
    UsernameRoundTrip("fc-", name, n);
    assert r.credentials[credId] == NewCompanyCredential(name, id, credId, username, password);
    assert Matches(r.credentials[credId], username, password);
    if !CanLogin(s, username, password) {
      CreatedCompanyOnlyMatch(s, name, id, credId, username, password);
    }
  }

  /** When no stored credential had the pair, the company credential is the
      only one that matches it after `createCompany`. */
  lemma CreatedCompanyOnlyMatch(s: State, name: string, id: string, credId: string, username: string, password: string)
    requires !CanLogin(s, username, password)
    ensures var r := AfterCreateCompany(s, name, id, credId, username, password);
      forall k :: k in r.credentials && Matches(r.credentials[k], username, password) ==>
        r.credentials[k] == NewCompanyCredential(name, id, credId, username, password)
  {
    var r := AfterCreateCompany(s, name, id, credId, username, password);
    forall k | k in r.credentials && k != credId
      ensures !Matches(r.credentials[k], username, password)
    {
      assert k in s.credentials && r.credentials[k] == s.credentials[k];
    }
  }

  /** `createCompany` with a fresh company id keeps a consistent state consistent. */
  lemma CreateCompanyKeepsConsistent(s: State, name: string, id: string, credId: string, username: string, password: string)
    requires Consistent(s) && Fresh(s, id)
    ensures Consistent(AfterCreateCompany(s, name, id, credId, username, password))
  {
    var r := AfterCreateCompany(s, name, id, credId, username, password);
    assert r.applicants == s.applicants;
    assert r.companies == s.companies[id := NewCompany(name, id, credId)];
    assert r.credentials == s.credentials[credId := NewCompanyCredential(name, id, credId, username, password)];
    forall c | c in s.companies
      ensures r.companies[c] == s.companies[c]
    {
      assert c != id;
    }
    assert KeysMatch(r);
    forall c, i | c in r.companies && i in r.companies[c].applicants
      ensures i in r.applicants && r.applicants[i].companyId == c
    {
      assert c != id;
    }
    forall i | i in r.applicants && r.applicants[i].companyId in r.companies
      ensures i in r.companies[r.applicants[i].companyId].applicants
    {
      assert s.applicants[i].companyId != id;
    }
    forall c | c in r.companies
      ensures NoDup(r.companies[c].applicants)
    {
      if c != id {
        assert NoDup(s.companies[c].applicants);
      }
    }
  }

  // ---------------------------------------------------------------------
  // createApplicant
  // ---------------------------------------------------------------------

  /** The Draft applicant record `createApplicant` builds. */
  function NewApplicant(companyId: string, name: string, id: string, credId: string): Applicant {
    Applicant(id, name, companyId, "", false, false, [], credId)
  }

  /** The credential `createApplicant` builds. */
  function NewApplicantCredential(name: string, id: string, credId: string, username: string, password: string): Credential {
    Credential(credId, username, password, ApplicantRole, Some(id))
  }

  /** The state between the two dispatches of `createApplicant`: the applicant
      and its credential are in, the company does not list it yet. */
  function AfterFirstStep(s: State, companyId: string, name: string, id: string, credId: string, username: string, password: string): State {
    Reduce(s, UpsertApplicant(NewApplicant(companyId, name, id, credId), NewApplicantCredential(name, id, credId, username, password)))
  }

  /** The state after `createApplicant`: the first dispatch, then, when the
      company existed before the call, an UPSERT_COMPANY of that earlier
      company record with the new id appended, re-sending the same credential. */
  function AfterCreateApplicant(s: State, companyId: string, name: string, id: string, credId: string, username: string, password: string): State {
    var s1 := AfterFirstStep(s, companyId, name, id, credId, username, password);
    if companyId in s.companies then
      var c := s.companies[companyId];
      Reduce(s1, UpsertCompany(c.(applicants := c.applicants + [id]), NewApplicantCredential(name, id, credId, username, password)))
    else s1
  }

  /** The two dispatches of `createApplicant` write the applicant table and
      the credential table only in the first step: the second re-writes the
      same credential and touches only the company table. */
  lemma CreateApplicantSteps(s: State, companyId: string, name: string, id: string, credId: string, username: string, password: string)
    ensures var r := AfterCreateApplicant(s, companyId, name, id, credId, username, password);
      && r.applicants == s.applicants[id := NewApplicant(companyId, name, id, credId)]
      && r.credentials == s.credentials[credId := NewApplicantCredential(name, id, credId, username, password)]
      && r.currentUserId == s.currentUserId
  {
    var cred := NewApplicantCredential(name, id, credId, username, password);
    var s1 := AfterFirstStep(s, companyId, name, id, credId, username, password);
    if companyId in s.companies {
      assert s1.credentials[credId := cred] == s1.credentials;
    }
  }

  /** With a fresh applicant id, `createApplicant` creates one Draft applicant
      pointing at the given company and keeps every other applicant. */
  lemma CreateApplicantDraft(s: State, companyId: string, name: string, id: string, credId: string, username: string, password: string)
    requires id !in s.applicants
    ensures var r := AfterCreateApplicant(s, companyId, name, id, credId, username, password);
      && r.applicants.Keys == s.applicants.Keys + {id}
      && (forall k :: k in s.applicants ==> r.applicants[k] == s.applicants[k])
      && r.applicants[id].companyId == companyId && r.applicants[id].name == name
      && r.applicants[id].proforma1 == "" && !r.applicants[id].submitted && !r.applicants[id].approved
      && r.applicants[id].documents == [] && r.applicants[id].credentialsId == credId
  {
    CreateApplicantSteps(s, companyId, name, id, credId, username, password);
  }

  /** With a fresh credential id, `createApplicant` adds exactly one
      credential, of role applicant and linked to the new applicant, and
      keeps every other credential. */
  lemma CreateApplicantCredential(s: State, companyId: string, name: string, id: string, credId: string, username: string, password: string)
    requires credId !in s.credentials
    ensures var r := AfterCreateApplicant(s, companyId, name, id, credId, username, password);
      && r.credentials.Keys == s.credentials.Keys + {credId} && |r.credentials| == |s.credentials| + 1
      && (forall k :: k in s.credentials ==> r.credentials[k] == s.credentials[k])
      && r.credentials[credId].role == ApplicantRole && r.credentials[credId].linkedId == Some(id)
  {
    CreateApplicantSteps(s, companyId, name, id, credId, username, password);
    var r := AfterCreateApplicant(s, companyId, name, id, credId, username, password);
    assert r.credentials.Keys == s.credentials.Keys + {credId};
  }

  /** The applicant credential's username is `ap-<slug of the name>-<n>`, and
      logging in with it and the generated password succeeds; when no
      earlier credential had that pair, the new applicant credential is the
      only one that matches. */
  lemma CreateApplicantLogin(s: State, companyId: string, name: string, id: string, credId: string, n: nat, password: string)
    requires 1000 <= n <= 9999
    ensures var r := AfterCreateApplicant(s, companyId, name, id, credId, ApplicantUsername(name, n), password);
      && ParseUsername(r.credentials[credId].username) == Some(("ap-", Slugify(name), n))
      && CanLogin(r, ApplicantUsername(name, n), password)
      && (!CanLogin(s, ApplicantUsername(name, n), password) ==>
            forall k :: k in r.credentials && Matches(r.credentials[k], ApplicantUsername(name, n), password) ==>
              r.credentials[k] == NewApplicantCredential(name, id, credId, ApplicantUsername(name, n), password))
  {
    var username := ApplicantUsername(name, n);
    CreateApplicantSteps(s, companyId, name, id, credId, username, password);
    var r := AfterCreateApplicant(s, companyId, name, id, credId, username, password);
    UsernameRoundTrip("ap-", name, n);
    assert Matches(r.credentials[credId], username, password);
    if !CanLogin(s, username, password) {
      CreatedApplicantOnlyMatch(s, companyId, name, id, credId, username, password);
    }
  }

  /** When no stored credential had the pair, the applicant credential is the
      only one that matches it after `createApplicant`. */
  lemma CreatedApplicantOnlyMatch(s: State, companyId: string, name: string, id: string, credId: string, username: string, password: string)
    requires !CanLogin(s, username, password)
    ensures var r := AfterCreateApplicant(s, companyId, name, id, credId, username, password);
      forall k :: k in r.credentials && Matches(r.credentials[k], username, password) ==>
        r.credentials[k] == NewApplicantCredential(name, id, credId, username, password)
  {
    CreateApplicantSteps(s, companyId, name, id, credId, username, password);
    var r := AfterCreateApplicant(s, companyId, name, id, credId, username, password);
    forall k | k in r.credentials && k != credId
      ensures !Matches(r.credentials[k], username, password)
    {
      assert k in s.credentials && r.credentials[k] == s.credentials[k];
    }
  }

  /** On an existing company, the second dispatch of `createApplicant`
      replaces that company by its earlier record with the new id appended
      to its list, and changes no other company. */
  lemma CreateApplicantAppends(s: State, companyId: string, name: string, id: string, credId: string, username: string, password: string)
    requires KeysMatch(s) && companyId in s.companies
    ensures var r := AfterCreateApplicant(s, companyId, name, id, credId, username, password);
      && r.companies.Keys == s.companies.Keys
      && r.companies[companyId] == s.companies[companyId].(applicants := s.companies[companyId].applicants + [id])
      && (forall k :: k in s.companies && k != companyId ==> r.companies[k] == s.companies[k])
  {
  }

  /** Adding a fresh applicant and appending its id to its existing
      company's list keeps the state consistent, and the id is then listed
      exactly once. */
  lemma AddLinkedApplicant(s: State, r: State, ap: Applicant, cred: Credential)
    requires Consistent(s) && AddsListed(s, r, ap, cred)
    ensures Consistent(r)
    ensures Count(r.companies[ap.companyId].applicants, ap.id) == 1
  {
    var listed := s.companies[ap.companyId].applicants;
    AppendFresh(listed, ap.id);
    assert r.companies[ap.companyId].id == ap.companyId;
    AddListedForward(s, r, ap, cred);
    AddListedBackward(s, r, ap, cred);
    AddListedNoDup(s, r, ap, cred);
  }

  /** `r` is `s` with the fresh applicant `ap` and its credential added, and
      `ap`'s id appended to its existing company's list. */
  predicate AddsListed(s: State, r: State, ap: Applicant, cred: Credential) {
    && ap.companyId in s.companies && ap.id !in s.applicants
    && r.credentials == s.credentials[cred.id := cred]
    && r.applicants == s.applicants[ap.id := ap]
    && var c := s.companies[ap.companyId];
    r.companies == s.companies[ap.companyId := c.(applicants := c.applicants + [ap.id])]
  }

  lemma AddListedForward(s: State, r: State, ap: Applicant, cred: Credential)
    requires Consistent(s) && AddsListed(s, r, ap, cred)
    ensures forall c, i :: c in r.companies && i in r.companies[c].applicants ==>
              i in r.applicants && r.applicants[i].companyId == c
  {
    var listed := s.companies[ap.companyId].applicants;
    forall c, i | c in r.companies && i in r.companies[c].applicants
      ensures i in r.applicants && r.applicants[i].companyId == c
    {
      if c != ap.companyId {
        assert r.companies[c] == s.companies[c];
      } else if i != ap.id {
        assert i in listed;
      }
    }
  }

  lemma AddListedBackward(s: State, r: State, ap: Applicant, cred: Credential)
    requires Consistent(s) && AddsListed(s, r, ap, cred)
    ensures forall i :: i in r.applicants && r.applicants[i].companyId in r.companies ==>
              i in r.companies[r.applicants[i].companyId].applicants
  {
    forall i | i in r.applicants && r.applicants[i].companyId in r.companies
      ensures i in r.companies[r.applicants[i].companyId].applicants
    {
      if i != ap.id {
        var c := s.applicants[i].companyId;
        assert i in s.companies[c].applicants;
      }
    }
  }

  lemma AddListedNoDup(s: State, r: State, ap: Applicant, cred: Credential)
    requires Consistent(s) && AddsListed(s, r, ap, cred)
    ensures forall c :: c in r.companies ==> NoDup(r.companies[c].applicants)
  {
    var listed := s.companies[ap.companyId].applicants;
    assert ap.id !in listed;
    AppendFresh(listed, ap.id);
    forall c | c in r.companies
      ensures NoDup(r.companies[c].applicants)
    {
      if c != ap.companyId {
        assert r.companies[c] == s.companies[c];
      }
    }
  }


  /** On an existing company and a fresh applicant id, the new id occurs
      exactly once in the company's list afterwards, and the state stays
      consistent. */
  lemma CreateApplicantLinks(s: State, companyId: string, name: string, id: string, credId: string, username: string, password: string)
    requires Consistent(s) && companyId in s.companies && id !in s.applicants
    ensures var r := AfterCreateApplicant(s, companyId, name, id, credId, username, password);
      && Count(r.companies[companyId].applicants, id) == 1
      && Consistent(r)
  {
    CreateApplicantSteps(s, companyId, name, id, credId, username, password);
    CreateApplicantAppends(s, companyId, name, id, credId, username, password);
    var r := AfterCreateApplicant(s, companyId, name, id, credId, username, password);
    AddLinkedApplicant(s, r, NewApplicant(companyId, name, id, credId), NewApplicantCredential(name, id, credId, username, password));
  }

  /** `createApplicant` with an applicant id not in use keeps a consistent
      state consistent, whether or not the company exists. */
  lemma CreateApplicantKeepsConsistent(s: State, companyId: string, name: string, id: string, credId: string, username: string, password: string)
    requires Consistent(s) && id !in s.applicants
    ensures Consistent(AfterCreateApplicant(s, companyId, name, id, credId, username, password))
  {
    if companyId in s.companies {
      CreateApplicantLinks(s, companyId, name, id, credId, username, password);
    } else {
      CreateApplicantOrphan(s, companyId, name, id, credId, username, password);
    }
  }

  /** On a company that did not exist before the call, only the first
      dispatch happens: the applicant is created orphaned, listed by no
      company, no company changes, and consistency is kept. */
  lemma CreateApplicantOrphan(s: State, companyId: string, name: string, id: string, credId: string, username: string, password: string)
    requires Consistent(s) && companyId !in s.companies && id !in s.applicants
    ensures var r := AfterCreateApplicant(s, companyId, name, id, credId, username, password);
      && r.companies == s.companies
      && (forall c :: c in r.companies ==> id !in r.companies[c].applicants)
      && Consistent(r)
  {
  }

  /** Between the two dispatches the state is not consistent: the new
      applicant points at a company that does not list it yet. */
  lemma FirstStepBreaksLinks(s: State, companyId: string, name: string, id: string, credId: string, username: string, password: string)
    requires Consistent(s) && companyId in s.companies && id !in s.applicants
    ensures !Linked(AfterFirstStep(s, companyId, name, id, credId, username, password))
  {
    var s1 := AfterFirstStep(s, companyId, name, id, credId, username, password);
    assert id !in s.companies[companyId].applicants;
    assert s1.companies == s.companies && s1.applicants == s.applicants[id := NewApplicant(companyId, name, id, credId)];
    UnlistedApplicantBreaksLinks(s1, id);
  }

  /** An applicant whose company exists but does not list it breaks the links. */
  lemma UnlistedApplicantBreaksLinks(s: State, i: string)
    requires i in s.applicants && s.applicants[i].companyId in s.companies
    requires i !in s.companies[s.applicants[i].companyId].applicants
    ensures !Linked(s)
  {
  }
}
