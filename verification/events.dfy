/**
 * The events service of the monolith (monolith/src/modules/events/service.ts) and of the
 * event service (microservices/event-service/src/modules/events/service.ts). The two behave
 * alike except for the message of a duplicate enrolment and the relations a lookup includes.
 */
module Events {
  import opened Wrappers
  import opened Failures
  import opened Tables
  import opened Domain
  import opened Sorting
  import opened EventSchemas

  const EventNotFound := "Event not found"
  const AlreadyEnrolledMonolith := "Already enrolled in this event"
  const AlreadyEnrolledService := "Already enrolled"

  /** An event as the monolith's `getEventById` returns it, with its live sessions and its enrolled users. */
  datatype EventView = EventView(id: Id, event: Event, sessions: set<Id>, enrolled: set<Id>)

  /** Nothing for a missing or deleted event; otherwise the event, only its non-deleted sessions, and its enrolments. */
  function GetEventById(events: Table<Event>, sessions: Table<Session>, enrolments: Enrolments, id: Id): (r: Option<EventView>)
    ensures r.Some? <==> Live(events, id)
    ensures r.Some? ==> r.value.id == id && r.value.event == events[id].value
    ensures r.Some? ==> forall s :: s in r.value.sessions <==> Live(sessions, s) && sessions[s].value.eventId == id
    ensures r.Some? ==> forall u :: u in r.value.enrolled <==> (u, id) in enrolments
  {
    if Live(events, id) then
      var live := set s | s in sessions && !sessions[s].deleted && sessions[s].value.eventId == id;
      var users := set p | p in enrolments && p.1 == id :: p.0;
      assert forall u :: (u, id) in enrolments ==> u in users by {
        forall u | (u, id) in enrolments ensures u in users {
          var p := (u, id);
          assert p in enrolments && p.1 == id;
        }
      }
      Some(EventView(id, events[id].value, live, users))
    else
      None
  }

  /** The date of an event, for ordering; absent ids rank first but are never listed. */
  function EventDate(events: Table<Event>, id: Id): Date {
    if id in events then events[id].value.date else 0
  }

  /** `listEvents`: every non-deleted event exactly once, by ascending date. */
  method ListEvents(events: Table<Event>) returns (r: seq<(Id, Event)>)
    ensures forall id :: id in IdsOf(r) <==> Live(events, id)
    ensures forall i :: 0 <= i < |r| ==> r[i].0 in events && r[i].1 == events[r[i].0].value
    ensures forall i, j :: 0 <= i < j < |r| ==> r[i].0 != r[j].0
    ensures forall i, j :: 0 <= i < j < |r| ==> r[i].1.date <= r[j].1.date
  {
    var le := Ascending((id: Id) => EventDate(events, id));
    AscendingIsTotalPreorder((id: Id) => EventDate(events, id));
    var ids := SortedSelection(events.Keys, (id: Id) => Live(events, id), le);
    r := Rows(events, ids);
    forall id | Live(events, id) ensures id in IdsOf(r) {
      var i :| 0 <= i < |ids| && ids[i] == id;
      assert r[i].0 == id;
    }
    forall i, j | 0 <= i < j < |r| ensures r[i].1.date <= r[j].1.date {
      assert le(ids[i], ids[j]);
    }
  }

  /** `createEvent`: the validated body is stored under a new id with its date converted. */
  function CreateEvent(events: Table<Event>, id: Id, input: EventInput, toDate: string -> Option<Date>): (r: Result<Table<Event>, Failure>)
    requires id !in events
    ensures r.Err? <==> toDate(input.date).None?
    ensures r.Err? ==> r.error == Plain(InvalidDate)
    ensures r.Ok? ==> r.value.Keys == events.Keys + {id} && forall k :: k in events ==> r.value[k] == events[k]
    ensures r.Ok? ==> Find(r.value, id) == Some(Event(input.name, input.organization, toDate(input.date).value, input.description, input.logo))
  {
    var date :- StoreDate(input.date, toDate);
    Ok(events[id := Row(Event(input.name, input.organization, date, input.description, input.logo), false)])
  }

  /** The event after an update: the supplied fields replace the stored ones, the others stay. */
  function ApplyEventPatch(e: Event, p: EventPatch, date: Option<Date>): (r: Event)
    ensures r.name == p.name.GetOr(e.name) && r.organization == p.organization.GetOr(e.organization)
    ensures r.description == p.description.GetOr(e.description) && r.date == date.GetOr(e.date)
    ensures r.logo == (if p.logo.Some? then p.logo else e.logo)
  {
    Event(p.name.GetOr(e.name), p.organization.GetOr(e.organization), date.GetOr(e.date),
          p.description.GetOr(e.description), if p.logo.Some? then p.logo else e.logo)
  }

  /** Patching twice with the same patch is patching once. */
  lemma PatchIsIdempotent(e: Event, p: EventPatch, date: Option<Date>)
    ensures ApplyEventPatch(ApplyEventPatch(e, p, date), p, date) == ApplyEventPatch(e, p, date)
  {
  }

  /** The patch with no field leaves an event as it was. */
  lemma EmptyPatchIsIdentity(e: Event)
    ensures ApplyEventPatch(e, EventPatch(None, None, None, None, None), None) == e
  {
  }

  /** `updateEvent`: only the supplied fields of that one event change; the deleted flag is untouched. */
  function UpdateEvent(events: Table<Event>, id: Id, p: EventPatch, toDate: string -> Option<Date>): (r: Result<Table<Event>, Failure>)
    ensures PatchDate(p.date, toDate).Err? ==> r == Err(Plain(InvalidDate))
    ensures PatchDate(p.date, toDate).Ok? && id !in events ==> r == Err(Plain(UpdateMissing))
    ensures r.Ok? ==> id in events && r.value.Keys == events.Keys && r.value[id].deleted == events[id].deleted
    ensures r.Ok? ==> r.value[id].value == ApplyEventPatch(events[id].value, p, PatchDate(p.date, toDate).value)
    ensures r.Ok? ==> forall k :: k in events && k != id ==> r.value[k] == events[k]
  {
    var date :- PatchDate(p.date, toDate);
    Update(events, id, (e: Event) => ApplyEventPatch(e, p, date))
  }

  /** `deleteEvent`: a soft delete; the event stays stored, hidden from lookups, and nothing else changes. */
  function DeleteEvent(events: Table<Event>, id: Id): (r: Result<Table<Event>, Failure>)
    ensures r.Err? <==> id !in events
    ensures r.Ok? ==> r.value.Keys == events.Keys && r.value[id] == Row(events[id].value, true)
    ensures r.Ok? ==> Find(r.value, id).None?
    ensures r.Ok? ==> forall k :: k in events && k != id ==> r.value[k] == events[k]
  {
    SoftDelete(events, id)
  }

  /** The enrolment rule shared by both services, with the service's duplicate message. */
  function Enroll(events: Table<Event>, enrolments: Enrolments, eventId: Id, userId: Id, duplicate: string): Result<Enrolments, Failure> {
    if !Live(events, eventId) then Err(Plain(EventNotFound))
    else if (userId, eventId) in enrolments then Err(Plain(duplicate))
    else Ok(enrolments + {(userId, eventId)})
  }

  /**
   * The monolith's `enrollInEvent`: a missing or deleted event fails first, whatever the enrolments;
   * then a duplicate fails; otherwise exactly that one enrolment is added.
   */
  function EnrollInEvent(events: Table<Event>, enrolments: Enrolments, eventId: Id, userId: Id): (r: Result<Enrolments, Failure>)
    ensures !Live(events, eventId) ==> r == Err(Plain(EventNotFound))
    ensures Live(events, eventId) && (userId, eventId) in enrolments ==> r == Err(Plain(AlreadyEnrolledMonolith))
    ensures r.Ok? <==> Live(events, eventId) && (userId, eventId) !in enrolments
    ensures r.Ok? ==> r.value == enrolments + {(userId, eventId)}
  {
    Enroll(events, enrolments, eventId, userId, AlreadyEnrolledMonolith)
  }

  /** The event service's `enrollInEvent`: the same order of checks, with the shorter duplicate message. */
  function EnrollInEventService(events: Table<Event>, enrolments: Enrolments, eventId: Id, userId: Id): (r: Result<Enrolments, Failure>)
    ensures !Live(events, eventId) ==> r == Err(Plain(EventNotFound))
    ensures Live(events, eventId) && (userId, eventId) in enrolments ==> r == Err(Plain(AlreadyEnrolledService))
    ensures r.Ok? <==> Live(events, eventId) && (userId, eventId) !in enrolments
    ensures r.Ok? ==> r.value == enrolments + {(userId, eventId)}
  {
    Enroll(events, enrolments, eventId, userId, AlreadyEnrolledService)
  }

  /** `leaveEvent`: removes exactly the (user, event) enrolment; a missing one is the store's delete error. */
  function LeaveEvent(enrolments: Enrolments, eventId: Id, userId: Id): (r: Result<Enrolments, Failure>)
    ensures r.Err? <==> (userId, eventId) !in enrolments
    ensures r.Err? ==> r.error == Plain(DeleteMissing)
    ensures r.Ok? ==> (userId, eventId) !in r.value
    ensures r.Ok? ==> forall p :: p != (userId, eventId) ==> (p in r.value <==> p in enrolments)
  {
    if (userId, eventId) in enrolments then Ok(enrolments - {(userId, eventId)}) else Err(Plain(DeleteMissing))
  }

  /** Enrolling and then leaving restores the enrolments. */
  lemma EnrollThenLeave(events: Table<Event>, enrolments: Enrolments, eventId: Id, userId: Id)
    requires EnrollInEvent(events, enrolments, eventId, userId).Ok?
    ensures LeaveEvent(EnrollInEvent(events, enrolments, eventId, userId).value, eventId, userId) == Ok(enrolments)
  {
  }

  /** A second enrolment of the same user in the same event is refused, so each pair is enrolled at most once. */
  lemma EnrollTwiceFails(events: Table<Event>, enrolments: Enrolments, eventId: Id, userId: Id)
    requires EnrollInEvent(events, enrolments, eventId, userId).Ok?
    ensures EnrollInEvent(events, EnrollInEvent(events, enrolments, eventId, userId).value, eventId, userId)
            == Err(Plain(AlreadyEnrolledMonolith))
  {
  }

  /** Once an event is deleted nobody can enrol in it, and its lookup is empty. */
  lemma DeletedEventRefusesEnrolment(events: Table<Event>, sessions: Table<Session>, enrolments: Enrolments, eventId: Id, userId: Id)
    requires eventId in events
    ensures GetEventById(DeleteEvent(events, eventId).value, sessions, enrolments, eventId).None?
    ensures EnrollInEvent(DeleteEvent(events, eventId).value, enrolments, eventId, userId) == Err(Plain(EventNotFound))
  {
  }
}
