/**
 * The sessions service of the monolith (monolith/src/modules/sessions/service.ts) and of the
 * session service (microservices/session-service/src/modules/sessions/service.ts).
 * They differ in one rule: only the monolith checks the speaker before linking it to a session.
 */
module Sessions {
  import opened Wrappers
  import opened Failures
  import opened Tables
  import opened Domain
  import opened Sorting
  import opened SessionSchemas

  const SessionNotFound := "Session not found"
  const SpeakerNotFound := "Speaker not found"
  const SpeakerAlreadyAddedMonolith := "Speaker already added to this session"
  const SpeakerAlreadyAddedService := "Speaker already added"

  /** `getSessionById`: nothing for a missing or deleted session, otherwise the stored session. */
  function GetSessionById(sessions: Table<Session>, id: Id): (r: Option<Session>)
    ensures r.Some? <==> id in sessions && !sessions[id].deleted
    ensures r.Some? ==> r.value == sessions[id].value
  {
    Find(sessions, id)
  }

  /** The filter `...(eventId && { eventId })`: an absent or empty event id filters nothing. */
  function EventFilter(eventId: Option<string>): (f: Option<Id>)
    ensures f.Some? <==> Truthy(eventId)
    ensures f.Some? ==> f == eventId
  {
    if Truthy(eventId) then eventId else None
  }

  predicate InFilter(f: Option<Id>, eventId: Id) {
    f.None? || f.value == eventId
  }

  function SessionDate(sessions: Table<Session>, id: Id): Date {
    if id in sessions then sessions[id].value.date else 0
  }

  /** `listSessions`: every non-deleted session of the requested event (of all events when none is given), once each, by ascending date. */
  method ListSessions(sessions: Table<Session>, eventId: Option<string>) returns (r: seq<(Id, Session)>)
    ensures forall id :: id in IdsOf(r) <==> Live(sessions, id) && InFilter(EventFilter(eventId), sessions[id].value.eventId)
    ensures forall i :: 0 <= i < |r| ==> r[i].0 in sessions && r[i].1 == sessions[r[i].0].value
    ensures forall i, j :: 0 <= i < j < |r| ==> r[i].0 != r[j].0
    ensures forall i, j :: 0 <= i < j < |r| ==> r[i].1.date <= r[j].1.date
  {
    var f := EventFilter(eventId);
    var le := Ascending((id: Id) => SessionDate(sessions, id));
    AscendingIsTotalPreorder((id: Id) => SessionDate(sessions, id));
    var ids := SortedSelection(sessions.Keys, (id: Id) => Live(sessions, id) && InFilter(f, sessions[id].value.eventId), le);
    r := Rows(sessions, ids);
    forall id | Live(sessions, id) && InFilter(f, sessions[id].value.eventId) ensures id in IdsOf(r) {
      var i :| 0 <= i < |ids| && ids[i] == id;
      assert r[i].0 == id;
    }
    forall i, j | 0 <= i < j < |r| ensures r[i].1.date <= r[j].1.date {
      assert le(ids[i], ids[j]);
    }
  }

  /**
   * A session of event `e` passes the filter built from the request's event id iff no id or an
   * empty one was given, or the id given is `e`: an empty event id lists the same sessions as none.
   */
  lemma EmptyEventIdIsNoFilter(eventId: Option<string>, e: Id)
    ensures InFilter(EventFilter(eventId), e) <==> eventId.None? || eventId.value == "" || eventId.value == e
    ensures EventFilter(Some("")) == EventFilter(None)
  {
  }

  /**
   * `createSession`: stores the validated body under a new id with its date converted;
   * the store's default for an absent `mandatory` is false.
   */
  function CreateSession(sessions: Table<Session>, id: Id, input: SessionInput, toDate: string -> Option<Date>): (r: Result<Table<Session>, Failure>)
    requires id !in sessions
    ensures r.Err? <==> toDate(input.date).None?
    ensures r.Err? ==> r.error == Plain(InvalidDate)
    ensures r.Ok? ==> r.value.Keys == sessions.Keys + {id} && Live(r.value, id)
    ensures r.Ok? ==> r.value[id].value.eventId == input.eventId && r.value[id].value.date == toDate(input.date).value
    ensures r.Ok? ==> r.value[id].value.mandatory == input.mandatory.GetOr(false)
    ensures r.Ok? ==> Find(r.value, id) == Some(Session(input.name, input.kind, input.local, toDate(input.date).value,
                                                        input.duration, input.time, input.mandatory.GetOr(false), input.eventId))
    ensures r.Ok? ==> forall k :: k in sessions ==> r.value[k] == sessions[k]
  {
    var date :- StoreDate(input.date, toDate);
    Ok(sessions[id := Row(Session(input.name, input.kind, input.local, date, input.duration, input.time,
                                  input.mandatory.GetOr(false), input.eventId), false)])
  }

  /** The session after an update: supplied fields replace the stored ones. */
  function ApplySessionPatch(s: Session, p: SessionPatch, date: Option<Date>): (r: Session)
    ensures r.name == p.name.GetOr(s.name) && r.kind == p.kind.GetOr(s.kind) && r.local == p.local.GetOr(s.local)
    ensures r.date == date.GetOr(s.date) && r.duration == p.duration.GetOr(s.duration) && r.time == p.time.GetOr(s.time)
    ensures r.mandatory == p.mandatory.GetOr(s.mandatory) && r.eventId == p.eventId.GetOr(s.eventId)
  {
    Session(p.name.GetOr(s.name), p.kind.GetOr(s.kind), p.local.GetOr(s.local), date.GetOr(s.date),
            p.duration.GetOr(s.duration), p.time.GetOr(s.time), p.mandatory.GetOr(s.mandatory), p.eventId.GetOr(s.eventId))
  }

  /** `updateSession`: a supplied date is converted (an empty one is handed to the store, which refuses it); only that session changes. */
  function UpdateSession(sessions: Table<Session>, id: Id, p: SessionPatch, toDate: string -> Option<Date>): (r: Result<Table<Session>, Failure>)
    ensures p.date.Some? && (p.date.value == "" || toDate(p.date.value).None?) ==> r == Err(Plain(InvalidDate))
    ensures r.Ok? ==> id in sessions && r.value.Keys == sessions.Keys && r.value[id].deleted == sessions[id].deleted
    ensures r.Ok? && p.date.None? ==> r.value[id].value == ApplySessionPatch(sessions[id].value, p, None)
    ensures r.Ok? && p.date.Some? ==> r.value[id].value == ApplySessionPatch(sessions[id].value, p, toDate(p.date.value))
    ensures r.Ok? ==> forall k :: k in sessions && k != id ==> r.value[k] == sessions[k]
    ensures (p.date.None? || (p.date.value != "" && toDate(p.date.value).Some?)) ==> (r.Err? <==> id !in sessions) && (r.Err? ==> r.error == Plain(UpdateMissing))
  {
    var date :- PatchDate(p.date, toDate);
    Update(sessions, id, (s: Session) => ApplySessionPatch(s, p, date))
  }

  /** `deleteSession`: a soft delete; the session stays stored and its lookup becomes empty. */
  function DeleteSession(sessions: Table<Session>, id: Id): (r: Result<Table<Session>, Failure>)
    ensures r.Err? <==> id !in sessions
    ensures r.Ok? ==> r.value.Keys == sessions.Keys && r.value[id] == Row(sessions[id].value, true)
    ensures r.Ok? ==> GetSessionById(r.value, id).None?
    ensures r.Ok? ==> forall k :: k in sessions && k != id ==> r.value[k] == sessions[k]
  {
    SoftDelete(sessions, id)
  }

  /**
   * The monolith's `addSpeakerToSession`: the session is checked first, then the speaker, then the
   * pair; on success exactly one link is added.
   */
  function AddSpeakerMonolith(sessions: Table<Session>, speakers: Table<Speaker>, links: SpeakerLinks, sessionId: Id, speakerId: Id): (r: Result<SpeakerLinks, Failure>)
    ensures !Live(sessions, sessionId) ==> r == Err(Plain(SessionNotFound))
    ensures Live(sessions, sessionId) && !Live(speakers, speakerId) ==> r == Err(Plain(SpeakerNotFound))
    ensures Live(sessions, sessionId) && Live(speakers, speakerId) && (sessionId, speakerId) in links
            ==> r == Err(Plain(SpeakerAlreadyAddedMonolith))
    ensures r.Ok? <==> Live(sessions, sessionId) && Live(speakers, speakerId) && (sessionId, speakerId) !in links
    ensures r.Ok? ==> r.value == links + {(sessionId, speakerId)} && |r.value| == |links| + 1
  {
    if !Live(sessions, sessionId) then Err(Plain(SessionNotFound))
    else if !Live(speakers, speakerId) then Err(Plain(SpeakerNotFound))
    else if (sessionId, speakerId) in links then Err(Plain(SpeakerAlreadyAddedMonolith))
    else Ok(links + {(sessionId, speakerId)})
  }

  /**
   * The session service's `addSpeakerToSession`: the session is checked, then the pair; the speaker
   * is never looked up (this service does not own speakers).
   */
  function AddSpeakerSessionService(sessions: Table<Session>, links: SpeakerLinks, sessionId: Id, speakerId: Id): (r: Result<SpeakerLinks, Failure>)
    ensures !Live(sessions, sessionId) ==> r == Err(Plain(SessionNotFound))
    ensures Live(sessions, sessionId) && (sessionId, speakerId) in links ==> r == Err(Plain(SpeakerAlreadyAddedService))
    ensures r.Ok? <==> Live(sessions, sessionId) && (sessionId, speakerId) !in links
    ensures r.Ok? ==> r.value == links + {(sessionId, speakerId)} && |r.value| == |links| + 1
  {
    if !Live(sessions, sessionId) then Err(Plain(SessionNotFound))
    else if (sessionId, speakerId) in links then Err(Plain(SpeakerAlreadyAddedService))
    else Ok(links + {(sessionId, speakerId)})
  }

  /** Whatever the monolith links, the session service links the same way; the converse fails for unknown speakers. */
  lemma ServiceAcceptsMore(sessions: Table<Session>, speakers: Table<Speaker>, links: SpeakerLinks, sessionId: Id, speakerId: Id)
    ensures AddSpeakerMonolith(sessions, speakers, links, sessionId, speakerId).Ok? ==>
            AddSpeakerSessionService(sessions, links, sessionId, speakerId) == AddSpeakerMonolith(sessions, speakers, links, sessionId, speakerId)
    ensures Live(sessions, sessionId) && !Live(speakers, speakerId) && (sessionId, speakerId) !in links ==>
            AddSpeakerMonolith(sessions, speakers, links, sessionId, speakerId).Err? &&
            AddSpeakerSessionService(sessions, links, sessionId, speakerId).Ok?
  {
  }

  /** `removeSpeakerFromSession`: deletes only that (session, speaker) link; a missing link is the store's delete error. */
  function RemoveSpeakerFromSession(links: SpeakerLinks, sessionId: Id, speakerId: Id): (r: Result<SpeakerLinks, Failure>)
    ensures r.Err? <==> (sessionId, speakerId) !in links
    ensures r.Err? ==> r.error == Plain(DeleteMissing)
    ensures r.Ok? ==> (sessionId, speakerId) !in r.value && |r.value| == |links| - 1
    ensures r.Ok? ==> forall p :: p != (sessionId, speakerId) ==> (p in r.value <==> p in links)
  {
    if (sessionId, speakerId) in links then Ok(links - {(sessionId, speakerId)}) else Err(Plain(DeleteMissing))
  }

  /** Adding a speaker and then removing it restores the links, in either service. */
  lemma AddThenRemove(sessions: Table<Session>, links: SpeakerLinks, sessionId: Id, speakerId: Id)
    requires AddSpeakerSessionService(sessions, links, sessionId, speakerId).Ok?
    ensures RemoveSpeakerFromSession(AddSpeakerSessionService(sessions, links, sessionId, speakerId).value, sessionId, speakerId) == Ok(links)
  {
  }

  /**
   * `attendSession` (the monolith's sessions service and the user service alike): an upsert on
   * (user, session). An existing record only gets `attended = true` and keeps its event and
   * creation time; otherwise one record is created with `attended = true`, stamped `now`.
   */
  function AttendSession(att: Attendances, userId: Id, sessionId: Id, eventId: Id, now: Date): (r: (Attendances, Attendance))
    ensures r.0.Keys == att.Keys + {(userId, sessionId)}
    ensures r.0[(userId, sessionId)] == r.1 && r.1.attended
    ensures (userId, sessionId) in att ==> r.1 == att[(userId, sessionId)].(attended := true)
    ensures (userId, sessionId) !in att ==> r.1 == Attendance(eventId, true, now)
    ensures forall k :: k in att && k != (userId, sessionId) ==> r.0[k] == att[k]
  {
    var key := (userId, sessionId);
    var record := if key in att then att[key].(attended := true) else Attendance(eventId, true, now);
    (att[key := record], record)
  }

  /** Repeating the attendance, with any event id and at any time, changes nothing more. */
  lemma AttendIsIdempotent(att: Attendances, userId: Id, sessionId: Id, eventId: Id, now: Date, eventId': Id, later: Date)
    ensures AttendSession(AttendSession(att, userId, sessionId, eventId, now).0, userId, sessionId, eventId', later)
            == AttendSession(att, userId, sessionId, eventId, now)
  {
    var once := AttendSession(att, userId, sessionId, eventId, now).0;
    assert once[(userId, sessionId) := once[(userId, sessionId)].(attended := true)] == once;
  }
}
