/**
 * The events controller of the event service
 * (microservices/event-service/src/modules/events/controller.ts): status codes, the not-found
 * answer of `getEvent` and the authentication gate of enrolling and leaving. Its error handler is
 * not part of this model, so thrown errors stay `next(error)`.
 */
module EventServiceControllers {
  import opened Wrappers
  import opened Failures
  import opened Tables
  import opened Domain
  import opened EventSchemas
  import Events

  const EventNotFound := "Event not found"
  const NotAuthenticated := "Not authenticated"

  /** `createEventController`: parse, store, answer 201. */
  function Create(events: Table<Event>, id: Id, body: EventBody, toDate: string -> Option<Date>): (r: (Table<Event>, Reply<Event>))
    requires id !in events
    ensures ParseCreateEvent(body).Err? ==> r == (events, Next(ParseCreateEvent(body).error))
    ensures r.1.Json? <==> ParseCreateEvent(body).Ok? && toDate(ParseCreateEvent(body).value.date).Some?
    ensures r.1.Json? ==> r.1.status == 201 && Live(r.0, id) && r.1.payload == r.0[id].value
    ensures r.1.Json? ==> r.0 == Events.CreateEvent(events, id, ParseCreateEvent(body).value, toDate).value
    ensures !r.1.Json? ==> r.0 == events && r.1.Next?
  {
    match ParseCreateEvent(body)
    case Err(e) => (events, Next(e))
    case Ok(input) =>
      match Events.CreateEvent(events, id, input, toDate)
      case Err(e) => (events, Next(e))
      case Ok(t) => (t, Json(201, t[id].value))
  }

  /** `getEvent`: 404 "Event not found" when the lookup is empty. */
  function GetEvent(events: Table<Event>, sessions: Table<Session>, enrolments: Enrolments, id: Id): (r: Reply<Events.EventView>)
    ensures r == ErrorJson(404, EventNotFound, []) <==> !Live(events, id)
    ensures r.Json? <==> Live(events, id)
    ensures r.Json? ==> r.status == 200 && r.payload.event == events[id].value
  {
    match Events.GetEventById(events, sessions, enrolments, id)
    case None => ErrorJson(404, EventNotFound, [])
    case Some(v) => Json(200, v)
  }

  /** `updateEventController`: parse with the partial schema, update, answer 200. */
  function Update(events: Table<Event>, id: Id, body: EventBody, toDate: string -> Option<Date>): (r: (Table<Event>, Reply<Event>))
    ensures ParseUpdateEvent(body).Err? ==> r == (events, Next(ParseUpdateEvent(body).error))
    ensures r.1.Json? <==> ParseUpdateEvent(body).Ok? && Events.UpdateEvent(events, id, ParseUpdateEvent(body).value, toDate).Ok?
    ensures r.1.Json? ==> r.1.status == 200 && id in r.0 && r.1.payload == r.0[id].value
    ensures r.1.Json? ==> r.0 == Events.UpdateEvent(events, id, ParseUpdateEvent(body).value, toDate).value
    ensures !r.1.Json? ==> r.0 == events && r.1.Next?
  {
    match ParseUpdateEvent(body)
    case Err(e) => (events, Next(e))
    case Ok(p) =>
      match Events.UpdateEvent(events, id, p, toDate)
      case Err(e) => (events, Next(e))
      case Ok(t) => (t, Json(200, t[id].value))
  }

  /** `deleteEventController`: a soft delete answered 204. */
  function Delete(events: Table<Event>, id: Id): (r: (Table<Event>, Reply<()>))
    ensures r.1 == NoContent <==> id in events
    ensures r.1 == NoContent ==> !Live(r.0, id) && r.0.Keys == events.Keys
    ensures r.1 == NoContent ==> r.0 == Events.DeleteEvent(events, id).value
    ensures r.1 == NoContent ==> r.0[id].value == events[id].value && forall k :: k in events && k != id ==> r.0[k] == events[k]
    ensures id !in events ==> r == (events, Next(Plain(UpdateMissing)))
  {
    match Events.DeleteEvent(events, id)
    case Err(e) => (events, Next(e))
    case Ok(t) => (t, NoContent)
  }

  /**
   * `enrollController`: 401 "Not authenticated" without a requester, before the service is
   * called; otherwise the requester's own enrolment in the path's event, answered with 201.
   */
  function Enroll(events: Table<Event>, enrolments: Enrolments, requester: Option<AuthUser>, id: Id)
    : (r: (Enrolments, Reply<(Id, Id)>))
    ensures requester.None? ==> r == (enrolments, ErrorJson(401, NotAuthenticated, []))
    ensures r.1.Json? <==> requester.Some? && Events.EnrollInEventService(events, enrolments, id, requester.value.userId).Ok?
    ensures r.1.Json? ==> r == (enrolments + {(requester.value.userId, id)}, Json(201, (requester.value.userId, id)))
    ensures !r.1.Json? ==> r.0 == enrolments
  {
    if requester.None? then (enrolments, ErrorJson(401, NotAuthenticated, []))
    else
      match Events.EnrollInEventService(events, enrolments, id, requester.value.userId)
      case Err(e) => (enrolments, Next(e))
      case Ok(t) => (t, Json(201, (requester.value.userId, id)))
  }

  /** `leaveController`: 401 without a requester; otherwise the requester's enrolment is removed and the answer is 204. */
  function Leave(enrolments: Enrolments, requester: Option<AuthUser>, id: Id): (r: (Enrolments, Reply<()>))
    ensures requester.None? ==> r == (enrolments, ErrorJson(401, NotAuthenticated, []))
    ensures r.1 == NoContent <==> requester.Some? && (requester.value.userId, id) in enrolments
    ensures r.1 == NoContent ==> r.0 == enrolments - {(requester.value.userId, id)}
    ensures r.1 != NoContent ==> r.0 == enrolments
  {
    if requester.None? then (enrolments, ErrorJson(401, NotAuthenticated, []))
    else
      match Events.LeaveEvent(enrolments, id, requester.value.userId)
      case Err(e) => (enrolments, Next(e))
      case Ok(t) => (t, NoContent)
  }

  /** Enrolling and then leaving, as the same requester, restores the enrolments. */
  lemma EnrollThenLeave(events: Table<Event>, enrolments: Enrolments, me: AuthUser, id: Id)
    requires Enroll(events, enrolments, Some(me), id).1.Json?
    ensures Leave(Enroll(events, enrolments, Some(me), id).0, Some(me), id) == (enrolments, NoContent)
  {
  }
}
