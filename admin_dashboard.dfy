/** The admin dashboard of src/pages/AdminDashboard.tsx: the list of
    applicants waiting for approval, the document-kit checkboxes, the
    approval button that approves and sets the kit, and the form that
    creates a company. */
module AdminDashboard {
  import opened Prelude
  import opened Slug
  import opened AppState
  import opened Provider

  /** `docOptions`: the six documents a kit can hold, in display order. */
  const DocOptions: seq<string> :=
    ["Proforma 3", "Proforma 4", "Proforma 5", "Proforma 6", "Invitation Letter", "Undertaking"]

  lemma DocOptionsDistinct()
    ensures NoDup(DocOptions)
  {
  }

  /** `selection[d]` read as a boolean: an absent entry is unticked. */
  predicate Selected(selection: map<string, bool>, d: string) {
    d in selection && selection[d]
  }

  /** `docOptions.filter((d) => selection[d])`: the ticked documents, each
      once, in the fixed display order. */
  function Picked(selection: map<string, bool>): (r: seq<string>)
    ensures IsSubsequence(r, DocOptions) && NoDup(r)
    ensures forall d :: d in r <==> d in DocOptions && Selected(selection, d)
  {
    var r := Filter(DocOptions, d => Selected(selection, d));
    DocOptionsDistinct();
    SubsequenceNoDup(r, DocOptions);
    r
  }

  /** `{ ...s, [name]: !s[name] }` */
  function Toggle(selection: map<string, bool>, name: string): map<string, bool> {
    selection[name := !Selected(selection, name)]
  }

  /** Toggling flips the one document's flag and leaves every other flag as
      it was; toggling the same document twice restores every flag. */
  lemma ToggleFlipsOne(selection: map<string, bool>, name: string)
    ensures forall d :: Selected(Toggle(selection, name), d) == (if d == name then !Selected(selection, d) else Selected(selection, d))
    ensures forall d :: Selected(Toggle(Toggle(selection, name), name), d) == Selected(selection, d)
  {
  }

  /** `pendingApplicants`: the ids of the applicants that are submitted and not yet approved. */
  function Pending(s: State): (p: set<string>)
    ensures forall id :: id in p <==> id in s.applicants && s.applicants[id].submitted && !s.applicants[id].approved
  {
    set id | id in s.applicants && s.applicants[id].submitted && !s.applicants[id].approved
  }

  /** The two commands an approval issues: APPROVE_APPLICANT, then SET_DOCUMENT_KIT. */
  function Approved(s: State, id: string, kit: seq<string>): State {
    Reduce(Reduce(s, ApproveApplicant(id)), SetDocumentKit(id, kit))
  }

  /** Approving a known applicant marks it approved with the kit as its
      documents, keeps its text and its `submitted` flag, touches no other
      record, takes it off the pending list and keeps the state consistent. */
  lemma ApprovedSpec(s: State, id: string, kit: seq<string>)
    requires KeysMatch(s) && id in s.applicants
    ensures var r := Approved(s, id, kit);
      && OnlyApplicantChanged(s, r, id)
      && r.applicants[id] == s.applicants[id].(approved := true, documents := kit)
      && Pending(r) == Pending(s) - {id}
      && (Consistent(s) ==> Consistent(r))
  {
    var mid := Reduce(s, ApproveApplicant(id));
    ApproveFrame(s, id);
    assert KeysMatch(mid);
    SetDocumentKitFrame(mid, id, kit);
    var r := Approved(s, id, kit);
    assert Pending(r) == Pending(s) - {id};
    if Consistent(s) {
      TargetedKeepsConsistent(s, ApproveApplicant(id));
      TargetedKeepsConsistent(mid, SetDocumentKit(id, kit));
    }
  }

  /** A submission puts a known, not yet approved applicant on the pending list. */
  lemma SubmitMakesPending(s: State, id: string)
    requires KeysMatch(s) && id in s.applicants && !s.applicants[id].approved
    ensures Pending(Reduce(s, SubmitProforma1(id))) == Pending(s) + {id}
  {
    SubmitFrame(s, id);
  }

  /** The dashboard's local state: the company-name field and the ticked documents. */
  class AdminPanel {
    var companyName: string
    var selection: map<string, bool>
    const store: Store

    constructor (store: Store)
      ensures this.store == store && companyName == "" && selection == map[]
    {
      this.store := store;
      companyName := "";
      selection := map[];
    }

    /** `toggleDoc(name)` */
    method ToggleDoc(name: string)
      modifies this
      ensures selection == Toggle(old(selection), name) && companyName == old(companyName)
    {
      selection := Toggle(selection, name);
    }

    /** `onApprove(applicantId)`: with nothing ticked it does nothing;
        otherwise it approves the applicant, gives it the ticked documents as
        its kit, and clears the ticks. */
    method OnApprove(applicantId: string) returns (done: bool)
      modifies this, store
      ensures done <==> Picked(old(selection)) != []
      ensures !done ==> store.state == old(store.state) && selection == old(selection)
      ensures done ==> store.state == Approved(old(store.state), applicantId, Picked(old(selection))) && selection == map[]
      ensures companyName == old(companyName)
    {
      var picked := Picked(selection);
      if |picked| == 0 {
        return false;
      }
      store.ApproveApplicant(applicantId);
      store.SetDocumentKit(applicantId, picked);
      selection := map[];
      done := true;
    }

    /** `onCreateCompany`: a blank name does nothing; otherwise the company
        is created under the trimmed name and the field is cleared. */
    method OnCreateCompany(id: string, credId: string, n: nat, password: string) returns (issued: Option<Issued>)
      requires 1000 <= n <= 9999 && IsGeneratedPassword(password)
      modifies this, store
      ensures issued.Some? <==> !IsBlank(old(companyName))
      ensures issued.None? ==> store.state == old(store.state) && companyName == old(companyName)
      ensures issued.Some? ==>
        && store.state == AfterCreateCompany(old(store.state), Trim(old(companyName)), id, credId,
                                               CompanyUsername(Trim(old(companyName)), n), password)
        && issued.value == Issued(CompanyUsername(Trim(old(companyName)), n), password, id)
        && companyName == ""
      ensures selection == old(selection)
    {
      var name := Trim(companyName);
      if name == "" {
        return None;
      }
      var res := store.CreateCompany(name, id, credId, n, password);
      companyName := "";
      issued := Some(res);
    }
  }
}
