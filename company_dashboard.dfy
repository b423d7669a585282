/** The company dashboard of src/pages/CompanyDashboard.tsx: the company
    named by the route parameter, its Proforma 2 text, the listing of its
    applicants with their status labels, and the form that creates an
    applicant and records `applicant_created`. */
module CompanyDashboard {
  import opened Prelude
  import opened Slug
  import opened AppState
  import opened Provider
  import opened Analytics
  import opened AdminDashboard

  /** `id ? state.companies[id] : undefined` */
  function FindCompany(s: State, id: Option<string>): (c: Option<Company>)
    ensures c.Some? <==> Truthy(id) && id.value in s.companies
    ensures c.Some? ==> c.value == s.companies[id.value]
  {
    if Truthy(id) && id.value in s.companies then Some(s.companies[id.value]) else None
  }

  /** The label shown in an applicant's status column. */
  function StatusLabel(a: Applicant): string {
    if a.approved then "Approved" else if a.submitted then "Submitted (Pending)" else "Draft"
  }

  /** "Approved" whenever approved, whatever `submitted` says; "Submitted
      (Pending)" exactly when submitted and not approved; "Draft" exactly
      when neither. */
  lemma StatusLabelCases(a: Applicant)
    ensures StatusLabel(a) == "Approved" <==> a.approved
    ensures StatusLabel(a) == "Submitted (Pending)" <==> a.submitted && !a.approved
    ensures StatusLabel(a) == "Draft" <==> !a.submitted && !a.approved
  {
  }

  /** The applicants labelled "Submitted (Pending)" are exactly the ones on
      the admin's pending list. */
  lemma PendingLabelAgrees(s: State, id: string)
    requires id in s.applicants
    ensures StatusLabel(s.applicants[id]) == "Submitted (Pending)" <==> id in Pending(s)
  {
    StatusLabelCases(s.applicants[id]);
  }

  /** `company.applicants.map((aid) => state.applicants[aid]).filter(Boolean)` */
  function Listed(s: State, ids: seq<string>): (r: seq<Applicant>)
    ensures |r| <= |ids|
  {
    if ids == [] then []
    else (if ids[0] in s.applicants then [s.applicants[ids[0]]] else []) + Listed(s, ids[1..])
  }

  /** The ids of a company's list that have a record, in list order. */
  function ListedIds(s: State, ids: seq<string>): seq<string> {
    Filter(ids, i => i in s.applicants)
  }

  /** The listing is the records of the ids that have one, in the order of
      the company's list: ids without a record are dropped. */
  lemma {:induction false} ListedSpec(s: State, ids: seq<string>)
    ensures |Listed(s, ids)| == |ListedIds(s, ids)|
    ensures forall k :: 0 <= k < |Listed(s, ids)| ==>
              ListedIds(s, ids)[k] in s.applicants && Listed(s, ids)[k] == s.applicants[ListedIds(s, ids)[k]]
  {
    if ids != [] {
      ListedSpec(s, ids[1..]);
      var rest, restIds := Listed(s, ids[1..]), ListedIds(s, ids[1..]);
      if ids[0] in s.applicants {
        assert Listed(s, ids) == [s.applicants[ids[0]]] + rest;
        assert ListedIds(s, ids) == [ids[0]] + restIds;
        forall k | 0 < k < |Listed(s, ids)|
          ensures ListedIds(s, ids)[k] in s.applicants && Listed(s, ids)[k] == s.applicants[ListedIds(s, ids)[k]]
        {
          assert Listed(s, ids)[k] == rest[k - 1] && ListedIds(s, ids)[k] == restIds[k - 1];
        }
      } else {
        assert Listed(s, ids) == rest;
        assert ListedIds(s, ids) == restIds;
      }
    }
  }

  /** In a consistent state nothing is dropped: the listing shows one record
      per listed id, in order, and every one of them belongs to the company. */
  lemma {:induction false} ListedWhenConsistent(s: State, c: string)
    requires Consistent(s) && c in s.companies
    ensures var ids := s.companies[c].applicants;
      && |Listed(s, ids)| == |ids|
      && forall k :: 0 <= k < |ids| ==> Listed(s, ids)[k] == s.applicants[ids[k]] && Listed(s, ids)[k].companyId == c
  {
    var ids := s.companies[c].applicants;
    ListedAllPresent(s, ids, c);
  }

  lemma {:induction false} ListedAllPresent(s: State, ids: seq<string>, c: string)
    requires forall i :: i in ids ==> i in s.applicants && s.applicants[i].companyId == c
    ensures |Listed(s, ids)| == |ids|
    ensures forall k :: 0 <= k < |ids| ==> Listed(s, ids)[k] == s.applicants[ids[k]] && Listed(s, ids)[k].companyId == c
  {
    if ids != [] {
      assert ids[0] in ids;
      forall i | i in ids[1..] ensures i in s.applicants && s.applicants[i].companyId == c {
        assert i in ids;
      }
      ListedAllPresent(s, ids[1..], c);
      var r := Listed(s, ids);
      assert r == [s.applicants[ids[0]]] + Listed(s, ids[1..]);
      forall k | 0 <= k < |ids| ensures r[k] == s.applicants[ids[k]] && r[k].companyId == c {
        if k > 0 {
          assert r[k] == Listed(s, ids[1..])[k - 1];
          assert ids[k] == ids[1..][k - 1];
        }
      }
    }
  }

  /** The page's local state: the Proforma 2 text, the applicant-name field,
      the route parameter, and the store and event log it uses. */
  class CompanyPanel {
    var proforma: string
    var applicantName: string
    const companyParam: Option<string>
    const store: Store
    const log: EventLog

    /** The page as first rendered: the text starts as the stored Proforma 2,
        or empty when the company is unknown. */
    constructor (store: Store, log: EventLog, companyParam: Option<string>)
      ensures this.store == store && this.log == log && this.companyParam == companyParam
      ensures proforma == (if FindCompany(store.state, companyParam).Some?
                           then FindCompany(store.state, companyParam).value.proforma2 else "")
      ensures applicantName == ""
    {
      this.store := store;
      this.log := log;
      this.companyParam := companyParam;
      var c := FindCompany(store.state, companyParam);
      proforma := if c.Some? then c.value.proforma2 else "";
      applicantName := "";
    }

    /** The company shown, or `None` for the "Company not found." view, in which no handler exists. */
    function Shown(): Option<Company>
      reads this, store
    {
      FindCompany(store.state, companyParam)
    }

    /** `onSaveProforma`: stores the text as the company's Proforma 2. */
    method OnSaveProforma()
      modifies store
      ensures Shown().Some? == old(Shown()).Some?
      ensures old(Shown()).None? ==> store.state == old(store.state)
      ensures old(Shown()).Some? ==> store.state == Reduce(old(store.state), AppState.SaveProforma2(old(Shown()).value.id, proforma))
    {
      var c := Shown();
      if c.None? {
        return;
      }
      store.SaveProforma2(c.value.id, proforma);
    }

    /** `onCreateApplicant`: a blank name, or an unknown company, does
        nothing; otherwise the applicant is created for this company under
        the trimmed name, `applicant_created` is recorded with the company
        and the new applicant, and the field is cleared. */
    method OnCreateApplicant(id: string, credId: string, n: nat, password: string, eventId: string, now: int)
      returns (issued: Option<Issued>)
      requires 1000 <= n <= 9999 && IsGeneratedPassword(password)
      modifies this, store, log
      ensures issued.Some? <==> old(Shown()).Some? && !IsBlank(old(applicantName))
      ensures issued.None? ==>
        store.state == old(store.state) && log.events == old(log.events) && applicantName == old(applicantName)
      ensures issued.Some? ==>
        var c := old(Shown()).value;
        && store.state == AfterCreateApplicant(old(store.state), c.id, Trim(old(applicantName)), id, credId,
                                                 ApplicantUsername(Trim(old(applicantName)), n), password)
        && issued.value == Issued(ApplicantUsername(Trim(old(applicantName)), n), password, id)
        && log.events == [Complete(EventInput(ApplicantCreated, CompanyRole, None, Some(c.id), Some(id), None), eventId, now)]
                         + old(log.events)
        && applicantName == ""
      ensures proforma == old(proforma)
    {
      var c := Shown();
      var name := Trim(applicantName);
      if c.None? || name == "" {
        return None;
      }
      var res := store.CreateApplicant(c.value.id, name, id, credId, n, password);
      log.RecordEvent(EventInput(ApplicantCreated, CompanyRole, None, Some(c.value.id), Some(res.id), None), eventId, now);
      applicantName := "";
      issued := Some(res);
    }
  }

  /** In a consistent state, the company a page shows lists the applicant
      the page just created, exactly once, at the end of its list. */
  lemma CreatedApplicantListed(s: State, c: string, name: string, id: string, credId: string, username: string, password: string)
    requires Consistent(s) && c in s.companies && id !in s.applicants
    ensures var r := AfterCreateApplicant(s, c, name, id, credId, username, password);
      && c in r.companies
      && var ids := r.companies[c].applicants;
      && ids == s.companies[c].applicants + [id]
      && Count(ids, id) == 1
      && |Listed(r, ids)| == |ids|
      && Listed(r, ids)[|ids| - 1] == r.applicants[id]
      && StatusLabel(r.applicants[id]) == "Draft"
  {
    CreateApplicantAppends(s, c, name, id, credId, username, password);
    CreateApplicantLinks(s, c, name, id, credId, username, password);
    CreateApplicantDraft(s, c, name, id, credId, username, password);
    var r := AfterCreateApplicant(s, c, name, id, credId, username, password);
    ListedWhenConsistent(r, c);
  }
}
