/**
 * The sessions controller of the monolith (monolith/src/modules/sessions/controller.ts): status
 * codes, the not-found mapping of `getSession` and the `eventId` gate of `attendSession`.
 * Refusals are thrown as AppErrors; the requester is always present behind the authentication
 * middleware (`req.user!`).
 */
module MonolithSessionControllers {
  import opened Wrappers
  import opened Failures
  import opened Tables
  import opened Domain
  import opened SchemaChecks
  import opened SessionSchemas
  import Sessions

  const SessionNotFound := "Session not found"
  const EventIdRequired := "eventId is required"

  /** `createSession`: parse, store, answer 201 with the stored session. */
  function CreateSession(sessions: Table<Session>, id: Id, body: SessionBody, fmt: Formats, toDate: string -> Option<Date>)
    : (r: (Table<Session>, Reply<Session>))
    requires id !in sessions
    ensures ParseCreateSession(body, fmt).Err? ==> r == (sessions, Next(ParseCreateSession(body, fmt).error))
    ensures r.1.Json? <==> ParseCreateSession(body, fmt).Ok? && Sessions.CreateSession(sessions, id, ParseCreateSession(body, fmt).value, toDate).Ok?
    ensures r.1.Json? ==> r.1.status == 201 && Live(r.0, id) && r.1.payload == r.0[id].value
    ensures r.1.Json? ==> r.0 == Sessions.CreateSession(sessions, id, ParseCreateSession(body, fmt).value, toDate).value
    ensures !r.1.Json? ==> r.0 == sessions && r.1.Next?
  {
    match ParseCreateSession(body, fmt)
    case Err(e) => (sessions, Next(e))
    case Ok(input) =>
      match Sessions.CreateSession(sessions, id, input, toDate)
      case Err(e) => (sessions, Next(e))
      case Ok(t) => (t, Json(201, t[id].value))
  }

  /** `getSession`: an empty lookup throws AppError("Session not found", 404). */
  function GetSession(sessions: Table<Session>, id: Id): (r: Reply<Session>)
    ensures r == Next(App(SessionNotFound, 404, true)) <==> !Live(sessions, id)
    ensures r.Json? <==> Live(sessions, id)
    ensures r.Json? ==> r == Json(200, sessions[id].value)
  {
    match Sessions.GetSessionById(sessions, id)
    case None => Next(AppError(SessionNotFound, Some(404)))
    case Some(s) => Json(200, s)
  }

  /** `updateSession`: parse, update, answer 200 with the updated session. */
  function UpdateSession(sessions: Table<Session>, id: Id, body: SessionBody, fmt: Formats, toDate: string -> Option<Date>)
    : (r: (Table<Session>, Reply<Session>))
    ensures ParseUpdateSession(body, fmt).Err? ==> r == (sessions, Next(ParseUpdateSession(body, fmt).error))
    ensures r.1.Json? <==> ParseUpdateSession(body, fmt).Ok? && Sessions.UpdateSession(sessions, id, ParseUpdateSession(body, fmt).value, toDate).Ok?
    ensures r.1.Json? ==> r.1.status == 200 && id in r.0 && r.1.payload == r.0[id].value
    ensures r.1.Json? ==> r.0 == Sessions.UpdateSession(sessions, id, ParseUpdateSession(body, fmt).value, toDate).value
    ensures !r.1.Json? ==> r.0 == sessions && r.1.Next?
  {
    match ParseUpdateSession(body, fmt)
    case Err(e) => (sessions, Next(e))
    case Ok(p) =>
      match Sessions.UpdateSession(sessions, id, p, toDate)
      case Err(e) => (sessions, Next(e))
      case Ok(t) => (t, Json(200, t[id].value))
  }

  /** `deleteSession`: a soft delete answered 204. */
  function DeleteSession(sessions: Table<Session>, id: Id): (r: (Table<Session>, Reply<()>))
    ensures r.1 == NoContent <==> id in sessions
    ensures r.1 == NoContent ==> r.0 == Sessions.DeleteSession(sessions, id).value && !Live(r.0, id)
    ensures id !in sessions ==> r == (sessions, Next(Plain(UpdateMissing)))
  {
    match Sessions.DeleteSession(sessions, id)
    case Err(e) => (sessions, Next(e))
    case Ok(t) => (t, NoContent)
  }

  /** `addSpeaker`: both ids come from the path; the new link is answered with 201. */
  function AddSpeaker(sessions: Table<Session>, speakers: Table<Speaker>, links: SpeakerLinks, id: Id, speakerId: Id)
    : (r: (SpeakerLinks, Reply<(Id, Id)>))
    ensures r.1.Json? <==> Sessions.AddSpeakerMonolith(sessions, speakers, links, id, speakerId).Ok?
    ensures r.1.Json? ==> r == (links + {(id, speakerId)}, Json(201, (id, speakerId)))
    ensures !r.1.Json? ==> r == (links, Next(Sessions.AddSpeakerMonolith(sessions, speakers, links, id, speakerId).error))
  {
    match Sessions.AddSpeakerMonolith(sessions, speakers, links, id, speakerId)
    case Err(e) => (links, Next(e))
    case Ok(t) => (t, Json(201, (id, speakerId)))
  }

  /** `removeSpeaker`: the link is deleted and the answer is 204. */
  function RemoveSpeaker(links: SpeakerLinks, id: Id, speakerId: Id): (r: (SpeakerLinks, Reply<()>))
    ensures r.1 == NoContent <==> (id, speakerId) in links
    ensures r.1 == NoContent ==> r.0 == links - {(id, speakerId)}
    ensures (id, speakerId) !in links ==> r == (links, Next(Plain(DeleteMissing)))
  {
    match Sessions.RemoveSpeakerFromSession(links, id, speakerId)
    case Err(e) => (links, Next(e))
    case Ok(t) => (t, NoContent)
  }

  /**
   * `attendSession`: a missing or empty `eventId` throws AppError("eventId is required", 400)
   * before the service is called; otherwise the path id is the session, the requester is the
   * user, and the record is answered with 201.
   */
  function AttendSession(att: Attendances, requester: AuthUser, id: Id, eventId: Option<string>, now: Date)
    : (r: (Attendances, Reply<Attendance>))
    ensures !Truthy(eventId) ==> r == (att, Next(App(EventIdRequired, 400, true)))
    ensures r.1.Json? <==> Truthy(eventId)
    ensures r.1.Json? ==> r.1.status == 201 && (requester.userId, id) in r.0 && r.0[(requester.userId, id)] == r.1.payload
    ensures r.1.Json? ==> r.0 == Sessions.AttendSession(att, requester.userId, id, eventId.value, now).0
  {
    if !Truthy(eventId) then (att, Next(AppError(EventIdRequired, Some(400))))
    else
      var (t, record) := Sessions.AttendSession(att, requester.userId, id, eventId.value, now);
      (t, Json(201, record))
  }
}

/**
 * The sessions controller of the session service
 * (microservices/session-service/src/modules/sessions/controller.ts). Its error handler is not
 * part of this model, so thrown errors stay `next(error)`.
 */
module SessionServiceControllers {
  import opened Wrappers
  import opened Failures
  import opened Tables
  import opened Domain
  import opened SessionSchemas
  import opened SessionServiceSchemas
  import Sessions

  const NoSessions := "No sessions found!"
  const SessionNotFound := "Session not found!"

  /** `createSessionController`: parse, store, answer 201. */
  function Create(sessions: Table<Session>, id: Id, body: SessionBody, toDate: string -> Option<Date>)
    : (r: (Table<Session>, Reply<Session>))
    requires id !in sessions
    ensures SessionServiceSchemas.ParseCreate(body).Err? ==> r == (sessions, Next(SessionServiceSchemas.ParseCreate(body).error))
    ensures r.1.Json? <==> SessionServiceSchemas.ParseCreate(body).Ok? && toDate(SessionServiceSchemas.ParseCreate(body).value.date).Some?
    ensures r.1.Json? ==> r.1.status == 201 && Live(r.0, id) && r.1.payload == r.0[id].value
    ensures r.1.Json? ==> r.0 == Sessions.CreateSession(sessions, id, SessionServiceSchemas.ParseCreate(body).value, toDate).value
    ensures !r.1.Json? ==> r.0 == sessions && r.1.Next?
  {
    match SessionServiceSchemas.ParseCreate(body)
    case Err(e) => (sessions, Next(e))
    case Ok(input) =>
      match Sessions.CreateSession(sessions, id, input, toDate)
      case Err(e) => (sessions, Next(e))
      case Ok(t) => (t, Json(201, t[id].value))
  }

  /** `getSessions`: 404 "No sessions found!" when the listing is empty, otherwise the listing. */
  method GetSessions(sessions: Table<Session>, eventId: Option<string>) returns (r: Reply<seq<(Id, Session)>>)
    ensures r == ErrorJson(404, NoSessions, []) <==>
            !exists id :: Live(sessions, id) && Sessions.InFilter(Sessions.EventFilter(eventId), sessions[id].value.eventId)
    ensures r.Json? ==> r.status == 200 && r.payload != []
    ensures r.Json? ==> forall id :: id in IdsOf(r.payload) <==>
              Live(sessions, id) && Sessions.InFilter(Sessions.EventFilter(eventId), sessions[id].value.eventId)
    ensures r.Json? ==> forall i :: 0 <= i < |r.payload| ==> r.payload[i].0 in sessions && r.payload[i].1 == sessions[r.payload[i].0].value
    ensures r.Json? ==> forall i, j :: 0 <= i < j < |r.payload| ==> r.payload[i].0 != r.payload[j].0
    ensures r.Json? ==> forall i, j :: 0 <= i < j < |r.payload| ==> r.payload[i].1.date <= r.payload[j].1.date
  {
    var rows := Sessions.ListSessions(sessions, eventId);
    if rows == [] {
      r := ErrorJson(404, NoSessions, []);
      assert IdsOf(rows) == {};
    } else {
      r := Json(200, rows);
      assert rows[0].0 in IdsOf(rows);
    }
  }

  /** `getSession`: 404 "Session not found!" when the lookup is empty. */
  function GetSession(sessions: Table<Session>, id: Id): (r: Reply<Session>)
    ensures r == ErrorJson(404, SessionNotFound, []) <==> !Live(sessions, id)
    ensures r.Json? <==> Live(sessions, id)
    ensures r.Json? ==> r == Json(200, sessions[id].value)
  {
    match Sessions.GetSessionById(sessions, id)
    case None => ErrorJson(404, SessionNotFound, [])
    case Some(s) => Json(200, s)
  }

  /** `updateSessionController`: parse with the partial schema, update, answer 200. */
  function Update(sessions: Table<Session>, id: Id, body: SessionBody, toDate: string -> Option<Date>)
    : (r: (Table<Session>, Reply<Session>))
    ensures SessionServiceSchemas.ParseUpdate(body).Err? ==> r == (sessions, Next(SessionServiceSchemas.ParseUpdate(body).error))
    ensures r.1.Json? <==> SessionServiceSchemas.ParseUpdate(body).Ok?
                           && Sessions.UpdateSession(sessions, id, SessionServiceSchemas.ParseUpdate(body).value, toDate).Ok?
    ensures r.1.Json? ==> r.1.status == 200 && id in r.0 && r.1.payload == r.0[id].value
    ensures r.1.Json? ==> r.0 == Sessions.UpdateSession(sessions, id, SessionServiceSchemas.ParseUpdate(body).value, toDate).value
    ensures !r.1.Json? ==> r.0 == sessions && r.1.Next?
  {
    match SessionServiceSchemas.ParseUpdate(body)
    case Err(e) => (sessions, Next(e))
    case Ok(p) =>
      match Sessions.UpdateSession(sessions, id, p, toDate)
      case Err(e) => (sessions, Next(e))
      case Ok(t) => (t, Json(200, t[id].value))
  }

  /** `deleteSessionController`: a soft delete answered 204. */
  function Delete(sessions: Table<Session>, id: Id): (r: (Table<Session>, Reply<()>))
    ensures r.1 == NoContent <==> id in sessions
    ensures r.1 == NoContent ==> !Live(r.0, id) && r.0.Keys == sessions.Keys
    ensures r.1 == NoContent ==> r.0 == Sessions.DeleteSession(sessions, id).value
    ensures r.1 == NoContent ==> r.0[id].value == sessions[id].value && forall k :: k in sessions && k != id ==> r.0[k] == sessions[k]
    ensures id !in sessions ==> r == (sessions, Next(Plain(UpdateMissing)))
  {
    match Sessions.DeleteSession(sessions, id)
    case Err(e) => (sessions, Next(e))
    case Ok(t) => (t, NoContent)
  }

  /** `addSpeakerController`: the speaker id comes from the body; the new link is answered with 201. */
  function AddSpeaker(sessions: Table<Session>, links: SpeakerLinks, id: Id, speakerId: Id): (r: (SpeakerLinks, Reply<(Id, Id)>))
    ensures r.1.Json? <==> Live(sessions, id) && (id, speakerId) !in links
    ensures r.1.Json? ==> r == (links + {(id, speakerId)}, Json(201, (id, speakerId)))
    ensures !r.1.Json? ==> r == (links, Next(Sessions.AddSpeakerSessionService(sessions, links, id, speakerId).error))
  {
    match Sessions.AddSpeakerSessionService(sessions, links, id, speakerId)
    case Err(e) => (links, Next(e))
    case Ok(t) => (t, Json(201, (id, speakerId)))
  }

  /** `removeSpeakerController`: the link is deleted and the answer is 204. */
  function RemoveSpeaker(links: SpeakerLinks, id: Id, speakerId: Id): (r: (SpeakerLinks, Reply<()>))
    ensures r.1 == NoContent <==> (id, speakerId) in links
    ensures r.1 == NoContent ==> r.0 == links - {(id, speakerId)}
    ensures (id, speakerId) !in links ==> r == (links, Next(Plain(DeleteMissing)))
  {
    match Sessions.RemoveSpeakerFromSession(links, id, speakerId)
    case Err(e) => (links, Next(e))
    case Ok(t) => (t, NoContent)
  }
}
