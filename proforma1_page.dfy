/** The applicant's Proforma 1 page of
    src/pages/proformas/Proforma1Applicant.tsx: a local draft of the text,
    a Save button that stores it, and a Submit button that refuses blank
    text. Once the applicant is submitted the editor is disabled and both
    buttons are gone, so those actions do nothing. */
module Proforma1Page {
  import opened Prelude
  import opened AppState
  import opened Provider
  import opened Analytics

  /** `id ? state.applicants[id] : undefined` */
  function FindApplicant(s: State, id: Option<string>): (a: Option<Applicant>)
    ensures a.Some? <==> Truthy(id) && id.value in s.applicants
    ensures a.Some? ==> a.value == s.applicants[id.value]
  {
    if Truthy(id) && id.value in s.applicants then Some(s.applicants[id.value]) else None
  }

  /** `applicant?.proforma1 ?? ""` */
  function StoredText(s: State, id: Option<string>): string {
    var a := FindApplicant(s, id);
    if a.Some? then a.value.proforma1 else ""
  }

  /** The event `onSave` or `onSubmit` records for an applicant. */
  function ApplicantEvent(t: EventType, applicantId: string): EventInput {
    EventInput(t, ApplicantRole, None, None, Some(applicantId), None)
  }

  class Proforma1Form {
    var draft: string
    const applicantParam: Option<string>
    const store: Store
    const log: EventLog

    /** The page as first rendered: the draft starts as the stored text. */
    constructor (store: Store, log: EventLog, applicantParam: Option<string>)
      ensures this.store == store && this.log == log && this.applicantParam == applicantParam
      ensures draft == StoredText(store.state, applicantParam)
    {
      this.store := store;
      this.log := log;
      this.applicantParam := applicantParam;
      draft := StoredText(store.state, applicantParam);
    }

    /** The applicant shown, or `None` for the "Applicant not found." view. */
    function Shown(): Option<Applicant>
      reads this, store
    {
      FindApplicant(store.state, applicantParam)
    }

    /** The editor and the two buttons are there: the applicant exists and
        is not submitted. */
    predicate Editable()
      reads this, store
    {
      Shown().Some? && !Shown().value.submitted
    }

    /** Typing into the textarea, which is disabled once submitted. */
    method Edit(text: string)
      modifies this
      ensures draft == (if Editable() then text else old(draft))
    {
      if Editable() {
        draft := text;
      }
    }

    /** The effect that re-reads the stored text whenever it changes. */
    method SyncDraft()
      modifies this
      ensures draft == StoredText(store.state, applicantParam)
    {
      draft := StoredText(store.state, applicantParam);
    }

    /** `onSave`: stores the draft as the applicant's Proforma 1, exactly as
        typed, and records `proforma1_saved`. */
    method OnSave(eventId: string, now: int) returns (saved: bool)
      modifies store, log
      ensures saved <==> old(Editable())
      ensures !saved ==> store.state == old(store.state) && log.events == old(log.events)
      ensures saved ==>
        var id := old(Shown()).value.id;
        && store.state == Reduce(old(store.state), AppState.SaveProforma1(id, draft))
        && log.events == [Complete(ApplicantEvent(Proforma1Saved, id), eventId, now)] + old(log.events)
    {
      if !Editable() {
        return false;
      }
      var a := Shown().value;
      store.SaveProforma1(a.id, draft);
      log.RecordEvent(ApplicantEvent(Proforma1Saved, a.id), eventId, now);
      saved := true;
    }

    /** `onSubmit`: a blank draft is refused; otherwise the applicant is
        submitted and `proforma1_submitted` recorded. The draft is not saved:
        the stored text stays what it was, possibly blank. */
    method OnSubmit(eventId: string, now: int) returns (submittedNow: bool)
      modifies store, log
      ensures submittedNow <==> old(Editable()) && !IsBlank(draft)
      ensures !submittedNow ==> store.state == old(store.state) && log.events == old(log.events)
      ensures submittedNow ==>
        var id := old(Shown()).value.id;
        && store.state == Reduce(old(store.state), AppState.SubmitProforma1(id))
        && log.events == [Complete(ApplicantEvent(Proforma1Submitted, id), eventId, now)] + old(log.events)
    {
      if !Editable() || IsBlank(draft) {
        return false;
      }
      var a := Shown().value;
      store.SubmitProforma1(a.id);
      log.RecordEvent(ApplicantEvent(Proforma1Submitted, a.id), eventId, now);
      submittedNow := true;
    }
  }

  /** With records stored under their own ids, a submission from the page
      leaves the applicant submitted, so the editor and buttons are gone;
      the stored text is the one saved before, not the draft. */
  lemma SubmitClosesPage(s: State, param: Option<string>)
    requires KeysMatch(s) && FindApplicant(s, param).Some? && !FindApplicant(s, param).value.submitted
    ensures var id := FindApplicant(s, param).value.id;
      var r := Reduce(s, AppState.SubmitProforma1(id));
      && FindApplicant(r, param).Some? && FindApplicant(r, param).value.submitted
      && StoredText(r, param) == StoredText(s, param)
  {
    var id := param.value;
    SubmitFrame(s, id);
  }

  /** Submitting does not save the draft (`OnSubmit` dispatches only
      SUBMIT_PROFORMA1): an applicant that never saved ends up submitted
      with an empty Proforma 1. */
  lemma SubmitKeepsBlankText(s: State, param: Option<string>)
    requires KeysMatch(s) && FindApplicant(s, param).Some?
    requires FindApplicant(s, param).value.proforma1 == ""
    ensures var r := Reduce(s, AppState.SubmitProforma1(param.value));
      && r.applicants[param.value].submitted && r.applicants[param.value].proforma1 == ""
  {
    SubmitFrame(s, param.value);
  }
}
