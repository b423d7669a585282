/** The analytics event log of src/lib/analytics.ts: a list of events kept
    newest first. `recordEvent` reads the list, puts the completed event in
    front and writes the list back; `clearEvents` writes the empty list. The
    stored JSON text is represented by what parsing it yields. */
module Analytics {
  import opened Prelude

  /** `AnalyticsEventType` */
  datatype EventType =
    | LoginSuccess | CompanyCreated | ApplicantCreated | Proforma1Saved
    | Proforma1Submitted | Proforma2Saved | ApplicantApproved | KitCreated

  /** The string an event type is stored and shown as. */
  function TypeName(t: EventType): string {
    match t
    case LoginSuccess => "login_success"
    case CompanyCreated => "company_created"
    case ApplicantCreated => "applicant_created"
    case Proforma1Saved => "proforma1_saved"
    case Proforma1Submitted => "proforma1_submitted"
    case Proforma2Saved => "proforma2_saved"
    case ApplicantApproved => "applicant_approved"
    case KitCreated => "kit_created"
  }

  /** Distinct types are stored as distinct strings. */
  lemma TypeNameInjective(t: EventType, u: EventType)
    ensures TypeName(t) == TypeName(u) <==> t == u
  {
  }

  /** `AnalyticsEvent`; the timestamp is in epoch milliseconds. */
  datatype Event = Event(
    id: string,
    eventType: EventType,
    timestamp: int,
    actorRole: Role,
    actorId: Option<string>,
    companyId: Option<string>,
    applicantId: Option<string>)

  /** The argument of `recordEvent`: an event without an id, whose timestamp may be left out. */
  datatype EventInput = EventInput(
    eventType: EventType,
    actorRole: Role,
    actorId: Option<string>,
    companyId: Option<string>,
    applicantId: Option<string>,
    timestamp: Option<int>)

  /** What local storage holds under `analytics_events_v1`: nothing (or the
      empty string), text that does not parse, or a parsed list. */
  datatype Stored = Absent | Unparsable | Parsed(events: seq<Event>)

  /** `readAll()`: the parsed list, and the empty list when nothing is stored
      or the text does not parse. */
  function ReadAll(stored: Stored): (r: seq<Event>)
    ensures stored.Parsed? ==> r == stored.events
    ensures !stored.Parsed? ==> r == []
  {
    if stored.Parsed? then stored.events else []
  }

  /** The completed event `recordEvent` stores: a new id, the caller's
      timestamp or else the current time, and every other field as given. */
  function Complete(input: EventInput, id: string, now: int): (e: Event)
    ensures e.id == id
    ensures e.timestamp == (if input.timestamp.Some? then input.timestamp.value else now)
    ensures e.eventType == input.eventType && e.actorRole == input.actorRole && e.actorId == input.actorId
    ensures e.companyId == input.companyId && e.applicantId == input.applicantId
  {
    var ts := if input.timestamp.Some? then input.timestamp.value else now;
    Event(id, input.eventType, ts, input.actorRole, input.actorId, input.companyId, input.applicantId)
  }

  /** The log after recording `recorded`, oldest recording first, on top of `log`. */
  function AfterRecords(log: seq<Event>, recorded: seq<Event>): seq<Event>
    decreases |recorded|
  {
    if recorded == [] then log
    else AfterRecords([recorded[0]] + log, recorded[1..])
  }

  function Reverse<T>(xs: seq<T>): (r: seq<T>)
    ensures |r| == |xs|
    ensures forall k :: 0 <= k < |xs| ==> r[k] == xs[|xs| - 1 - k]
  {
    if xs == [] then [] else Reverse(xs[1..]) + [xs[0]]
  }

  /** Events recorded one after the other come out newest first, in front
      of the events that were there before, which keep their order. */
  lemma {:induction false} AfterRecordsNewestFirst(log: seq<Event>, recorded: seq<Event>)
    ensures AfterRecords(log, recorded) == Reverse(recorded) + log
    decreases |recorded|
  {
    if recorded != [] {
      AfterRecordsNewestFirst([recorded[0]] + log, recorded[1..]);
      assert Reverse(recorded) == Reverse(recorded[1..]) + [recorded[0]];
    }
  }

  /** The event log, holding what `readAll()` returns. */
  class EventLog {
    var events: seq<Event>

    /** The log as read from what is stored when the application starts. */
    constructor (stored: Stored)
      ensures events == ReadAll(stored)
    {
      events := ReadAll(stored);
    }

    /** `recordEvent(evt)` with `uid()` and `Date.now()` given as `id` and `now`. */
    method RecordEvent(input: EventInput, id: string, now: int)
      modifies this
      ensures events == [Complete(input, id, now)] + old(events)
      ensures |events| == |old(events)| + 1 && events[1..] == old(events)
    {
      var full := Complete(input, id, now);
      events := [full] + events;
    }

    /** `getEvents()` */
    method GetEvents() returns (r: seq<Event>)
      ensures r == events
    {
      r := events;
    }

    /** `clearEvents()` */
    method ClearEvents()
      modifies this
      ensures events == []
    {
      events := [];
    }
  }

  /** Recording two events and reading the log back gives the second, then
      the first, then what was there before. */
  method RecordTwice(log: EventLog, first: EventInput, second: EventInput,
                     id1: string, id2: string, now1: int, now2: int)
    returns (r: seq<Event>)
    modifies log
    ensures r == [Complete(second, id2, now2), Complete(first, id1, now1)] + old(log.events)
    ensures r == AfterRecords(old(log.events), [Complete(first, id1, now1), Complete(second, id2, now2)])
  {
    log.RecordEvent(first, id1, now1);
    log.RecordEvent(second, id2, now2);
    r := log.GetEvents();
    AfterRecordsNewestFirst(old(log.events), [Complete(first, id1, now1), Complete(second, id2, now2)]);
  }

  /** After clearing, reading the log gives nothing. */
  method ClearThenGet(log: EventLog) returns (r: seq<Event>)
    modifies log
    ensures r == [] && log.events == []
  {
    log.ClearEvents();
    r := log.GetEvents();
  }
}
