/**
 * The cross-service existence checks: `ValidateSession` of the session service
 * (microservices/session-service/src/grpc/server.ts) and `ValidateSpeaker` of the speaker
 * service (microservices/speaker-service/src/grpc/server.ts). Each answers from the soft-delete
 * lookup; a lookup that throws is handed to the callback as the error. The handlers only read,
 * so they take a table and return no table.
 */
module ExistenceRpc {
  import opened Wrappers
  import opened Failures
  import opened Tables
  import opened Domain
  import Sessions
  import Speakers

  /** The `{ exists, message }` reply; `found` is the `exists` field (a keyword here). */
  datatype Existence = Existence(found: bool, message: string)

  const SessionExists := "Session exists"
  const SessionMissing := "Session not found"
  const SpeakerExists := "Speaker already exists."
  const SpeakerMissing := "Speaker not found!"

  /** The reply for a lookup result: `!!found` and the message chosen by it. */
  function Answer<T>(found: Option<T>, yes: string, no: string): Existence {
    Existence(found.Some?, if found.Some? then yes else no)
  }

  /**
   * `ValidateSession`; `thrown` is the error the lookup raises, if any, which becomes the
   * callback's error and no reply.
   */
  function ValidateSession(sessions: Table<Session>, sessionId: Id, thrown: Option<Failure>): (r: Result<Existence, Failure>)
    ensures thrown.Some? ==> r == Err(thrown.value)
    ensures thrown.None? ==> r.Ok? && (r.value.found <==> Live(sessions, sessionId))
    ensures thrown.None? ==> r.value.message == (if Live(sessions, sessionId) then SessionExists else SessionMissing)
  {
    if thrown.Some? then Err(thrown.value)
    else Ok(Answer(Sessions.GetSessionById(sessions, sessionId), SessionExists, SessionMissing))
  }

  /** `ValidateSpeaker`, the same shape with the speaker service's messages. */
  function ValidateSpeaker(speakers: Table<Speaker>, speakerId: Id, thrown: Option<Failure>): (r: Result<Existence, Failure>)
    ensures thrown.Some? ==> r == Err(thrown.value)
    ensures thrown.None? ==> r.Ok? && (r.value.found <==> Live(speakers, speakerId))
    ensures thrown.None? ==> r.value.message == (if Live(speakers, speakerId) then SpeakerExists else SpeakerMissing)
  {
    if thrown.Some? then Err(thrown.value)
    else Ok(Answer(Speakers.GetSpeakerById(speakers, speakerId), SpeakerExists, SpeakerMissing))
  }

  /** A soft-deleted session is reported as absent, not as an error, and so is one never stored. */
  lemma DeletedSessionDoesNotExist(sessions: Table<Session>, sessionId: Id)
    ensures sessionId in sessions ==>
            ValidateSession(Sessions.DeleteSession(sessions, sessionId).value, sessionId, None) == Ok(Existence(false, SessionMissing))
    ensures sessionId !in sessions ==> ValidateSession(sessions, sessionId, None) == Ok(Existence(false, SessionMissing))
  {
  }

  /** A soft-deleted speaker is reported as absent, not as an error. */
  lemma DeletedSpeakerDoesNotExist(speakers: Table<Speaker>, speakerId: Id)
    requires speakerId in speakers
    ensures ValidateSpeaker(Speakers.DeleteSpeaker(speakers, speakerId).value, speakerId, None) == Ok(Existence(false, SpeakerMissing))
  {
  }

  /** The monolith links a speaker exactly when both existence checks would answer true and the pair is new. */
  lemma ExistsAgreesWithMonolithCheck(sessions: Table<Session>, speakers: Table<Speaker>, links: SpeakerLinks, sessionId: Id, speakerId: Id)
    ensures Sessions.AddSpeakerMonolith(sessions, speakers, links, sessionId, speakerId).Ok? <==>
            && ValidateSession(sessions, sessionId, None).value.found
            && ValidateSpeaker(speakers, speakerId, None).value.found
            && (sessionId, speakerId) !in links
  {
  }
}
