/** Webex meeting bookkeeping of the orchestrator: the `webexMeetings` map
    (room URL to the meeting and the session that owns it), the test that
    decides whether a known meeting can be handed out again, and the reply to
    a meeting query. The meeting-provider HTTP call is not modelled: its
    outcome is a parameter. */
module Meetings {
  import opened Wrappers
  import opened Messages

  /** The fields of a provider meeting the orchestrator reads. */
  datatype WebexMeeting = WebexMeeting(id: string, sipAddress: string, webLink: string, end: string)

  datatype MeetingData = MeetingData(userId: nat, meet: WebexMeeting)

  /** What the provider's meeting-creation call produced: a meeting (whose id
      or link may be missing, written ""), an error response with its body,
      or a failure without a response, with its message. */
  datatype MeetingCreation =
    | Created(id: string, webLink: string)
    | ProviderError(responseData: string)
    | RequestFailed(message: string)

  const SessionErrorLocation: string := "Back -> SocketManager.ts -> handleWebexSessionQuery()"

  /** `leaveRoom`'s first step: the room's meeting entry is dropped when, and
      only when, the leaving session owns it; no other entry changes. */
  function ReleaseMeeting(meetings: map<string, MeetingData>, roomUrl: string, userId: nat): (m': map<string, MeetingData>)
    ensures roomUrl in m' <==> roomUrl in meetings && meetings[roomUrl].userId != userId
    ensures forall k :: k in m' ==> k in meetings && m'[k] == meetings[k]
    ensures forall k :: k in meetings && k != roomUrl ==> k in m'
  {
    if roomUrl in meetings && meetings[roomUrl].userId == userId then meetings - {roomUrl} else meetings
  }

  /** The guard of `handleWebexSessionQuery`: `!meetingId || (meet &&
      Date.parse(end) <= Date.now()) || !meetingLink`, where the link read is
      the stored SIP address. `parse` stands for `Date.parse`, `None` for NaN
      (a comparison with NaN is false). */
  predicate NeedsNewMeeting(meet: Option<MeetingData>, parse: string -> Option<int>, nowMs: int) {
    var meetingId := if meet.Some? then Some(meet.value.meet.id) else None;
    var meetingLink := if meet.Some? then Some(meet.value.meet.sipAddress) else None;
    || meetingId.None? || meetingId.value == ""
    || (meet.Some? && parse(meet.value.meet.end).Some? && parse(meet.value.meet.end).value <= nowMs)
    || meetingLink.None? || meetingLink.value == ""
  }

  /** A known meeting is handed out again exactly when it has an id and a
      link and has not ended; an end date that does not parse never ends. */
  lemma ReuseIff(meet: Option<MeetingData>, parse: string -> Option<int>, nowMs: int)
    ensures !NeedsNewMeeting(meet, parse, nowMs) <==>
      && meet.Some? && meet.value.meet.id != "" && meet.value.meet.sipAddress != ""
      && (parse(meet.value.meet.end).None? || parse(meet.value.meet.end).value > nowMs)
  {
  }

  function SessionError(message: string): ServerMessage {
    WebexSessionError("[Back] " + (if message != "" then message else "Something went wrong"), SessionErrorLocation)
  }

  /** The message `handleWebexSessionQuery` writes to the querying session. */
  function WebexSessionReply(roomId: string, meet: Option<MeetingData>, parse: string -> Option<int>, nowMs: int, creation: MeetingCreation): (reply: ServerMessage)
    ensures reply.WebexSessionResponse? || reply.WebexSessionError?
    ensures reply.WebexSessionResponse? ==> reply.roomId == roomId && reply.meetingLink != ""
    ensures reply.WebexSessionError? ==> reply.location == SessionErrorLocation
  {
    if !NeedsNewMeeting(meet, parse, nowMs) then WebexSessionResponse(roomId, meet.value.meet.sipAddress)
    else
      match creation
      case Created(id, link) =>
        if id == "" then SessionError("Meeting is not created")
        else if link == "" then SessionError("No meeting link")
        else WebexSessionResponse(roomId, link)
      case ProviderError(data) => SessionError("Got an error asking Cisco to make a meeting for us: " + data)
      case RequestFailed(message) => SessionError(message)
  }

  /** The reply carries a link exactly when a reusable meeting is known or
      the provider returned both an id and a link; the link is the stored SIP
      address in the first case and the new meeting's web link in the second. */
  lemma ReplyIff(roomId: string, meet: Option<MeetingData>, parse: string -> Option<int>, nowMs: int, creation: MeetingCreation)
    ensures var reply := WebexSessionReply(roomId, meet, parse, nowMs, creation);
      && (reply.WebexSessionResponse? <==>
           !NeedsNewMeeting(meet, parse, nowMs) || (creation.Created? && creation.id != "" && creation.webLink != ""))
      && (reply.WebexSessionResponse? && !NeedsNewMeeting(meet, parse, nowMs) ==> reply.meetingLink == meet.value.meet.sipAddress)
      && (reply.WebexSessionResponse? && NeedsNewMeeting(meet, parse, nowMs) ==> reply.meetingLink == creation.webLink)
  {
  }
}
