/** The external calendar client. Each remote operation is described twice:
    once as a pure specification function from the old storage state to the
    new one (`TokenSpec`, `SyncSpec`, `DeleteSpec`, `PersistSpec`), and once
    as a method of `CalendarService` that updates the service's fields step
    by step and is proved to agree with its specification. Lemmas at the end
    state the per-meeting state machine keyed on `googleEventId`: unsynced,
    created, patched, cleared.

    HTTP calls are not made: every call's outcome is a parameter, and every
    call that would be sent is appended to `requests`, so "no remote call"
    is a statement about that sequence. */
module GoogleCalendar {
  import opened Common
  import opened Models

  /** Seconds an access token lives when the token endpoint omits `expires_in`. */
  const DefaultExpiresIn := 3600
  const DefaultCalendarId := "primary"
  const SyncFailedMessage := "Failed to sync meeting to Google Calendar."
  const DeleteFailedMessage := "Failed to remove Google Calendar event."
  const RefreshFailedMessage := "Failed to refresh Google access token."

  /** A configuration key as `config($key, $default)` sees it: absent (the
      default applies), present with null (null comes back, not the
      default), or present with a string. */
  datatype Setting = NotConfigured | ConfiguredNull | Configured(text: string)

  /** `config('app.timezone')` and `config('services.google.calendar_id')`. */
  datatype Config = Config(timeZone: string, calendarId: Setting)

  /** What the service reads but does not define: its configuration and the
      two user predicates `prefersGoogleCalendarSync` and
      `hasValidGoogleAccessToken` (the latter at a given time). */
  datatype Env = Env(config: Config, prefersSync: User -> bool, hasValidToken: (User, int) -> bool)

  /** Outcome of the refresh-token grant (section 6 of RFC 6749); `expiresIn`
      is the `expires_in` field of section 5.1, which may be absent. */
  datatype TokenResponse = Granted(accessToken: Option<string>, expiresIn: Option<int>) | RefreshFailed

  /** Outcome of a calendar call: success, with the `id` field of the JSON
      body when there is one, or failure (a transport error or non-2xx). */
  datatype HttpOutcome = Succeeded(id: Option<string>) | Failed

  datatype Attendee = Attendee(email: Option<string>, displayName: Option<string>)

  /** A top-level payload value. `DateTime` stands for the
      `{dateTime, timeZone}` object; the RFC 3339 text is kept opaque as the
      instant it denotes. */
  datatype PayloadValue =
    | Null
    | Text(text: string)
    | DateTime(at: int, timeZone: string)
    | Attendees(list: seq<Attendee>)

  /** An ordered PHP array of top-level payload entries. */
  type Payload = seq<(string, PayloadValue)>

  datatype Request =
    | RefreshGrant(refreshToken: string)
    | CreateEvent(accessToken: Option<string>, calendarId: string, payload: Payload)
    | PatchEvent(accessToken: Option<string>, calendarId: string, eventId: string, payload: Payload)
    | DeleteEvent(accessToken: Option<string>, calendarId: string, eventId: string)

  datatype Level = Error | Warning
  datatype LogEntry = LogEntry(level: Level, message: string, userId: nat, meetingId: Option<nat>)

  /** Storage (meeting and user rows), the requests sent so far and the log. */
  datatype State = State(
    meetings: map<nat, Meeting>,
    users: map<nat, User>,
    requests: seq<Request>,
    log: seq<LogEntry>
  )

  /** After a service call: the new state and the in-memory meeting. */
  datatype Outcome = Outcome(state: State, meeting: Instance)

  /** After `ensureValidAccessToken`: its answer, the in-memory user and the state. */
  datatype TokenResult = TokenResult(valid: bool, user: User, state: State)

  // ---------------------------------------------------------------------
  // Event payload and calendar id

  /** `array_filter` drops exactly the values `null` and `''`. */
  predicate Omitted(v: PayloadValue) {
    v == Null || v == Text("")
  }

  function DropOmitted(p: Payload): (r: Payload)
    ensures forall e :: e in r <==> e in p && !Omitted(e.1)
    ensures |r| <= |p|
  {
    if p == [] then []
    else
      assert forall e :: e in p <==> e == p[0] || e in p[1..];
      (if Omitted(p[0].1) then [] else [p[0]]) + DropOmitted(p[1..])
  }

  function OptionalText(s: Option<string>): PayloadValue {
    match s
    case None => Null
    case Some(t) => Text(t)
  }

  function AttendeesOf(m: Meeting): (r: seq<Attendee>)
    ensures |r| == 1 <==> HasExternalContact(m)
    ensures |r| <= 1
    ensures r != [] ==> r[0] == Attendee(m.externalContactEmail, m.externalContactName)
  {
    if HasExternalContact(m) then [Attendee(m.externalContactEmail, m.externalContactName)] else []
  }

  /** An entry of the full payload that `array_filter` keeps. */
  lemma KeptEntry(m: Meeting, timeZone: string, i: nat)
    requires i < 7 && !Omitted(FullPayload(m, timeZone)[i].1)
    ensures FullPayload(m, timeZone)[i] in BuildEventPayload(m, timeZone)
  {
    var full := FullPayload(m, timeZone);
    assert full[i] in full;
  }

  /** The event resource sent to the calendar: title, description and
      location, start and end in the application's time zone, status and
      attendees, with null and '' entries dropped. */
  function BuildEventPayload(m: Meeting, timeZone: string): (r: Payload)
    ensures |r| <= 7
  {
    DropOmitted(FullPayload(m, timeZone))
  }

  /** Every payload entry has one of the seven keys and a value that is
      neither null nor ''. */
  lemma PayloadEntriesAreFilled(m: Meeting, timeZone: string)
    ensures forall e :: e in BuildEventPayload(m, timeZone) ==> !Omitted(e.1) && e.0 in PayloadKeys
  {
  }

  /** Start, end, status and attendees are always sent. */
  lemma {:induction false} PayloadAlwaysHasTimesStatusAttendees(m: Meeting, timeZone: string)
    ensures var r := BuildEventPayload(m, timeZone);
      && ("status", Text("confirmed")) in r
      && ("start", DateTime(m.startAt, timeZone)) in r
      && ("end", DateTime(m.endAt, timeZone)) in r
      && ("attendees", Attendees(AttendeesOf(m))) in r
  {
    PayloadHasTimes(m, timeZone);
    PayloadHasStatusAndAttendees(m, timeZone);
  }

  lemma PayloadHasTimes(m: Meeting, timeZone: string)
    ensures ("start", DateTime(m.startAt, timeZone)) in BuildEventPayload(m, timeZone)
    ensures ("end", DateTime(m.endAt, timeZone)) in BuildEventPayload(m, timeZone)
  {
    KeptEntry(m, timeZone, 3);
    KeptEntry(m, timeZone, 4);
  }

  lemma PayloadHasStatusAndAttendees(m: Meeting, timeZone: string)
    ensures ("status", Text("confirmed")) in BuildEventPayload(m, timeZone)
    ensures ("attendees", Attendees(AttendeesOf(m))) in BuildEventPayload(m, timeZone)
  {
    KeptEntry(m, timeZone, 5);
    KeptEntry(m, timeZone, 6);
  }

  /** Title, description and location are sent exactly when not empty. */
  lemma {:induction false} PayloadHasTextIffNotEmpty(m: Meeting, timeZone: string)
    ensures var r := BuildEventPayload(m, timeZone);
      && (("summary", Text(m.title)) in r <==> m.title != "")
      && (m.description.Some? ==> (("description", Text(m.description.value)) in r <==> m.description.value != ""))
      && (m.location.Some? ==> (("location", Text(m.location.value)) in r <==> m.location.value != ""))
  {
    if m.title != "" {
      KeptEntry(m, timeZone, 0);
    }
    if m.description.Some? && m.description.value != "" {
      KeptEntry(m, timeZone, 1);
    }
    if m.location.Some? && m.location.value != "" {
      KeptEntry(m, timeZone, 2);
    }
  }

  const PayloadKeys: set<string> := {"summary", "description", "location", "start", "end", "status", "attendees"}

  /** The payload before `array_filter`. */
  function FullPayload(m: Meeting, timeZone: string): (r: Payload)
    ensures |r| == 7
    ensures forall e :: e in r ==> e.0 in PayloadKeys
    ensures forall e :: e in r && e.0 == "summary" ==> e.1 == Text(m.title)
    ensures forall e :: e in r && e.0 == "description" ==> e.1 == OptionalText(m.description)
    ensures forall e :: e in r && e.0 == "location" ==> e.1 == OptionalText(m.location)
  {
    [
      ("summary", Text(m.title)),
      ("description", OptionalText(m.description)),
      ("location", OptionalText(m.location)),
      ("start", DateTime(m.startAt, timeZone)),
      ("end", DateTime(m.endAt, timeZone)),
      ("status", Text("confirmed")),
      ("attendees", Attendees(AttendeesOf(m)))
    ]
  }

  /** The user's own calendar when set (and truthy), else the configured
      one cast to a string: "primary" when the key is absent, the empty
      string when it holds null. */
  function ResolveCalendarId(u: User, config: Config): (r: string)
    ensures !Falsy(u.googleCalendarId) ==> r == u.googleCalendarId.value
    ensures Falsy(u.googleCalendarId) && config.calendarId.NotConfigured? ==> r == DefaultCalendarId
    ensures Falsy(u.googleCalendarId) && config.calendarId.ConfiguredNull? ==> r == ""
    ensures Falsy(u.googleCalendarId) && config.calendarId.Configured? ==> r == config.calendarId.text
  {
    if !Falsy(u.googleCalendarId) then u.googleCalendarId.value
    else
      match config.calendarId
      case NotConfigured => DefaultCalendarId
      case ConfiguredNull => ""
      case Configured(text) => text
  }

  // ---------------------------------------------------------------------
  // Specification functions

  /** `forceFill([...])->save()` on a user: an update of the two token
      columns of the stored row; its other columns keep their stored values. */
  function StoreGrant(users: map<nat, User>, id: nat, token: Option<string>, expiresAt: Option<int>): map<nat, User> {
    if id in users then users[id := users[id].(googleAccessToken := token, googleTokenExpiresAt := expiresAt)] else users
  }

  function TokenSpec(env: Env, s: State, u: User, now: int, response: TokenResponse): TokenResult {
    if env.hasValidToken(u, now) then TokenResult(true, u, s)
    else if Falsy(u.googleRefreshToken) then TokenResult(false, u, s)
    else
      var sent := s.(requests := s.requests + [RefreshGrant(u.googleRefreshToken.value)]);
      match response
      case RefreshFailed =>
        TokenResult(false, u, sent.(log := sent.log + [LogEntry(Error, RefreshFailedMessage, u.id, None)]))
      case Granted(token, expiresIn) =>
        var refreshed := u.(googleAccessToken := token,
                            googleTokenExpiresAt := Some(now + expiresIn.GetOr(DefaultExpiresIn)));
        TokenResult(env.hasValidToken(refreshed, now), refreshed, sent.(users := StoreGrant(sent.users, u.id, refreshed.googleAccessToken, refreshed.googleTokenExpiresAt)))
  }

  /** Two meeting rows agree on everything but the two sync columns. */
  predicate SameExceptSync(a: Meeting, b: Meeting) {
    a.(googleEventId := b.googleEventId, googleSyncedAt := b.googleSyncedAt) == b
  }

  function PersistSpec(s: State, m: Instance, eventId: Option<string>, syncedAt: Option<int>): (r: Outcome)
    ensures !m.persisted ==> r == Outcome(s, m)
    ensures r.state.users == s.users && r.state.requests == s.requests && r.state.log == s.log
    ensures r.state.meetings.Keys == s.meetings.Keys
    ensures forall k :: k in s.meetings && (k != m.attrs.id || !m.persisted) ==> r.state.meetings[k] == s.meetings[k]
    ensures m.persisted && m.attrs.id in s.meetings ==>
      var row := r.state.meetings[m.attrs.id];
      row.googleEventId == eventId && row.googleSyncedAt == syncedAt && SameExceptSync(row, s.meetings[m.attrs.id])
    ensures m.persisted ==> r.meeting.attrs.googleEventId == eventId && r.meeting.attrs.googleSyncedAt == syncedAt
    ensures SameExceptSync(r.meeting.attrs, m.attrs) && r.meeting.persisted == m.persisted
  {
    if !m.persisted then Outcome(s, m)
    else
      var id := m.attrs.id;
      var filled := m.(attrs := m.attrs.(googleEventId := eventId, googleSyncedAt := syncedAt));
      if id in s.meetings then
        var row := s.meetings[id].(googleEventId := eventId, googleSyncedAt := syncedAt);
        Outcome(s.(meetings := s.meetings[id := row]), filled)
      else Outcome(s, filled)
  }

  function SyncSpec(env: Env, s: State, m: Instance, now: int, token: TokenResponse, call: HttpOutcome): Outcome {
    if !ShouldSyncToGoogle(m.attrs) then Outcome(s, m)
    else match ResolveUser(s.users, m)
      case None => Outcome(s, m)
      case Some(u) =>
        if !env.prefersSync(u) then Outcome(s, m)
        else
          var t := TokenSpec(env, s, u, now, token);
          if !t.valid then Outcome(t.state, m)
          else SendSpec(env, t.state, m, t.user, now, call)
  }

  /** The remote half of `syncMeeting`, once the user holds a valid token:
      PATCH the existing event or POST a new one, then persist. */
  function SendSpec(env: Env, s: State, m: Instance, u: User, now: int, call: HttpOutcome): Outcome {
    var payload := BuildEventPayload(m.attrs, env.config.timeZone);
    var calendarId := ResolveCalendarId(u, env.config);
    var eventId := m.attrs.googleEventId;
    var failure := LogEntry(Error, SyncFailedMessage, u.id, Some(m.attrs.id));
    if !Falsy(eventId) then
      var sent := s.(requests := s.requests + [PatchEvent(u.googleAccessToken, calendarId, eventId.value, payload)]);
      match call
      case Failed => Outcome(sent.(log := sent.log + [failure]), m)
      case Succeeded(_) => PersistSpec(sent, m, eventId, Some(now))
    else
      var sent := s.(requests := s.requests + [CreateEvent(u.googleAccessToken, calendarId, payload)]);
      match call
      case Failed => Outcome(sent.(log := sent.log + [failure]), m)
      case Succeeded(returned) =>
        var newId := if returned.Some? then returned else eventId;
        PersistSpec(sent, m.(attrs := m.attrs.(googleEventId := newId)), newId, Some(now))
  }

  function DeleteSpec(env: Env, s: State, m: Instance, now: int, token: TokenResponse, call: HttpOutcome): Outcome {
    if Falsy(m.attrs.googleEventId) then PersistSpec(s, m, None, None)
    else match ResolveUser(s.users, m)
      case None => Outcome(s, m)
      case Some(u) =>
        if !env.prefersSync(u) then Outcome(s, m)
        else
          var t := TokenSpec(env, s, u, now, token);
          if !t.valid then Outcome(t.state, m)
          else
            var calendarId := ResolveCalendarId(t.user, env.config);
            var sent := t.state.(requests := t.state.requests + [DeleteEvent(t.user.googleAccessToken, calendarId, m.attrs.googleEventId.value)]);
            match call
            case Failed => Outcome(sent.(log := sent.log + [LogEntry(Warning, DeleteFailedMessage, t.user.id, Some(m.attrs.id))]), m)
            case Succeeded(_) => PersistSpec(sent, m, None, None)
  }

  // ---------------------------------------------------------------------
  // Properties of the specification

  /** The user resolves, prefers sync, and holds (or obtains) a valid token:
      the preconditions every remote calendar call checks first. */
  predicate Ready(env: Env, s: State, m: Instance, now: int, token: TokenResponse) {
    var u := ResolveUser(s.users, m);
    u.Some? && env.prefersSync(u.value) && TokenSpec(env, s, u.value, now, token).valid
  }

  /** Every request after position `from` is a token refresh, none a calendar call. */
  predicate OnlyTokenTraffic(before: seq<Request>, after: seq<Request>) {
    |before| <= |after| && after[..|before|] == before
    && forall i :: |before| <= i < |after| ==> after[i].RefreshGrant?
  }

  lemma TokenValidSendsNothing(env: Env, s: State, u: User, now: int, response: TokenResponse)
    requires env.hasValidToken(u, now)
    ensures TokenSpec(env, s, u, now, response) == TokenResult(true, u, s)
  {
  }

  lemma TokenWithoutRefreshTokenFails(env: Env, s: State, u: User, now: int, response: TokenResponse)
    requires !env.hasValidToken(u, now) && Falsy(u.googleRefreshToken)
    ensures TokenSpec(env, s, u, now, response) == TokenResult(false, u, s)
  {
  }

  lemma TokenRefreshFailureKeepsUser(env: Env, s: State, u: User, now: int)
    requires !env.hasValidToken(u, now) && !Falsy(u.googleRefreshToken)
    ensures var r := TokenSpec(env, s, u, now, RefreshFailed);
      && !r.valid && r.user == u && r.state.users == s.users && r.state.meetings == s.meetings
      && r.state.requests == s.requests + [RefreshGrant(u.googleRefreshToken.value)]
      && r.state.log == s.log + [LogEntry(Error, RefreshFailedMessage, u.id, None)]
  {
  }

  /** A granted refresh stores the new token and an expiry `expires_in`
      (default 3600) seconds from now, after exactly one token request. Only
      those two columns of the user's stored row change; every other column
      and every other user keeps its stored value. */
  lemma TokenRefreshStoresGrant(env: Env, s: State, u: User, now: int, token: Option<string>, expiresIn: Option<int>)
    requires !env.hasValidToken(u, now) && !Falsy(u.googleRefreshToken)
    ensures var r := TokenSpec(env, s, u, now, Granted(token, expiresIn));
      && r.user == u.(googleAccessToken := token, googleTokenExpiresAt := Some(now + expiresIn.GetOr(DefaultExpiresIn)))
      && r.valid == env.hasValidToken(r.user, now)
      && r.state.requests == s.requests + [RefreshGrant(u.googleRefreshToken.value)]
      && r.state.log == s.log && r.state.meetings == s.meetings
      && r.state.users.Keys == s.users.Keys
      && (u.id in s.users ==>
            r.state.users[u.id] == s.users[u.id].(googleAccessToken := token, googleTokenExpiresAt := r.user.googleTokenExpiresAt))
      && (forall k :: k in s.users && k != u.id ==> r.state.users[k] == s.users[k])
      && (expiresIn.GetOr(DefaultExpiresIn) > 0 ==> r.user.googleTokenExpiresAt.value > now)
  {
  }

  /** The token step touches no meeting row and sends at most a token request. */
  lemma TokenStepFrame(env: Env, s: State, u: User, now: int, response: TokenResponse)
    ensures var r := TokenSpec(env, s, u, now, response);
      r.state.meetings == s.meetings && OnlyTokenTraffic(s.requests, r.state.requests)
      && r.user.id == u.id && r.user.googleCalendarId == u.googleCalendarId
      && r.user.googleRefreshToken == u.googleRefreshToken
  {
  }

  /** `syncMeeting` reaches the calendar only for an eligible meeting whose
      user is ready; otherwise the meeting and its row are left alone and
      at most a token request is sent. */
  lemma SyncInertUnlessEligibleAndReady(env: Env, s: State, m: Instance, now: int, token: TokenResponse, call: HttpOutcome)
    requires !ShouldSyncToGoogle(m.attrs) || !Ready(env, s, m, now, token)
    ensures var r := SyncSpec(env, s, m, now, token, call);
      r.meeting == m && r.state.meetings == s.meetings && OnlyTokenTraffic(s.requests, r.state.requests)
  {
    var u := ResolveUser(s.users, m);
    if ShouldSyncToGoogle(m.attrs) && u.Some? && env.prefersSync(u.value) {
      TokenStepFrame(env, s, u.value, now, token);
    }
  }

  lemma SyncPatchesExistingEvent(env: Env, s: State, m: Instance, now: int, token: TokenResponse, call: HttpOutcome)
    requires ShouldSyncToGoogle(m.attrs) && Ready(env, s, m, now, token)
    requires !Falsy(m.attrs.googleEventId)
    ensures var t := TokenSpec(env, s, ResolveUser(s.users, m).value, now, token);
      var r := SyncSpec(env, s, m, now, token, call);
      && r.state.requests == t.state.requests + [PatchEvent(t.user.googleAccessToken,
           ResolveCalendarId(t.user, env.config), m.attrs.googleEventId.value,
           BuildEventPayload(m.attrs, env.config.timeZone))]
      && r.meeting.attrs.googleEventId == m.attrs.googleEventId
      && (call.Succeeded? && m.persisted && m.attrs.id in s.meetings ==>
            && m.attrs.id in r.state.meetings
            && r.state.meetings[m.attrs.id].googleEventId == m.attrs.googleEventId
            && r.state.meetings[m.attrs.id].googleSyncedAt == Some(now))
  {
    var t := TokenSpec(env, s, ResolveUser(s.users, m).value, now, token);
    TokenStepFrame(env, s, ResolveUser(s.users, m).value, now, token);
    var r := SyncSpec(env, s, m, now, token, call);
    assert r == SendSpec(env, t.state, m, t.user, now, call);
    var sent := t.state.(requests := t.state.requests + [PatchEvent(t.user.googleAccessToken,
           ResolveCalendarId(t.user, env.config), m.attrs.googleEventId.value,
           BuildEventPayload(m.attrs, env.config.timeZone))]);
    if call.Succeeded? {
      assert r == PersistSpec(sent, m, m.attrs.googleEventId, Some(now));
    }
  }

  lemma SyncCreatesMissingEvent(env: Env, s: State, m: Instance, now: int, token: TokenResponse, returned: Option<string>)
    requires ShouldSyncToGoogle(m.attrs) && Ready(env, s, m, now, token)
    requires Falsy(m.attrs.googleEventId)
    ensures var t := TokenSpec(env, s, ResolveUser(s.users, m).value, now, token);
      var r := SyncSpec(env, s, m, now, token, Succeeded(returned));
      var stored := if returned.Some? then returned else m.attrs.googleEventId;
      && r.state.requests == t.state.requests + [CreateEvent(t.user.googleAccessToken,
           ResolveCalendarId(t.user, env.config), BuildEventPayload(m.attrs, env.config.timeZone))]
      && r.meeting.attrs.googleEventId == stored
      && (m.persisted && m.attrs.id in s.meetings ==>
            && m.attrs.id in r.state.meetings
            && r.state.meetings[m.attrs.id].googleEventId == stored
            && r.state.meetings[m.attrs.id].googleSyncedAt == Some(now))
  {
    var u := ResolveUser(s.users, m).value;
    var t := TokenSpec(env, s, u, now, token);
    TokenStepFrame(env, s, u, now, token);
    var r := SyncSpec(env, s, m, now, token, Succeeded(returned));
    assert r == SendSpec(env, t.state, m, t.user, now, Succeeded(returned));
    var stored := if returned.Some? then returned else m.attrs.googleEventId;
    var sent := t.state.(requests := t.state.requests + [CreateEvent(t.user.googleAccessToken,
           ResolveCalendarId(t.user, env.config), BuildEventPayload(m.attrs, env.config.timeZone))]);
    assert r == PersistSpec(sent, m.(attrs := m.attrs.(googleEventId := stored)), stored, Some(now));
  }

  /** A failed calendar call is logged and nothing is persisted. */
  lemma SyncFailurePersistsNothing(env: Env, s: State, m: Instance, now: int, token: TokenResponse)
    ensures var r := SyncSpec(env, s, m, now, token, Failed);
      && r.meeting == m && r.state.meetings == s.meetings
      && (ShouldSyncToGoogle(m.attrs) && Ready(env, s, m, now, token) ==>
            var t := TokenSpec(env, s, ResolveUser(s.users, m).value, now, token);
            r.state.log == t.state.log + [LogEntry(Error, SyncFailedMessage, t.user.id, Some(m.attrs.id))])
  {
    var u := ResolveUser(s.users, m);
    if ShouldSyncToGoogle(m.attrs) && u.Some? && env.prefersSync(u.value) {
      TokenStepFrame(env, s, u.value, now, token);
    }
  }

  /** With no remote event there is no request at all; the row's sync
      columns become null, and a second call changes nothing more. */
  lemma DeleteWithoutEventIsIdempotent(env: Env, s: State, m: Instance, now: int, token: TokenResponse, call: HttpOutcome,
                                       token2: TokenResponse, call2: HttpOutcome)
    requires Falsy(m.attrs.googleEventId)
    ensures var r := DeleteSpec(env, s, m, now, token, call);
      && r.state.requests == s.requests && r.state.log == s.log && r.state.users == s.users
      && (m.persisted && m.attrs.id in s.meetings ==>
            r.state.meetings[m.attrs.id].googleEventId == None && r.state.meetings[m.attrs.id].googleSyncedAt == None)
      && DeleteSpec(env, r.state, r.meeting, now, token2, call2) == r
  {
    var r := DeleteSpec(env, s, m, now, token, call);
    assert Falsy(r.meeting.attrs.googleEventId);
    if m.persisted && m.attrs.id in s.meetings {
      assert r.state.meetings == s.meetings[m.attrs.id := r.state.meetings[m.attrs.id]];
      assert r.state.meetings[m.attrs.id := r.state.meetings[m.attrs.id]] == r.state.meetings;
    }
  }

  /** With a remote event and a ready user, `deleteMeeting` sends one DELETE
      for that event; the sync columns are cleared only if it succeeds, and
      after a failure the meeting still carries its id for a later retry. */
  lemma DeleteClearsOnlyAfterSuccess(env: Env, s: State, m: Instance, now: int, token: TokenResponse, call: HttpOutcome)
    requires !Falsy(m.attrs.googleEventId) && Ready(env, s, m, now, token)
    ensures var t := TokenSpec(env, s, ResolveUser(s.users, m).value, now, token);
      var r := DeleteSpec(env, s, m, now, token, call);
      && r.state.requests == t.state.requests + [DeleteEvent(t.user.googleAccessToken,
           ResolveCalendarId(t.user, env.config), m.attrs.googleEventId.value)]
      && (call.Failed? ==>
            && r.meeting == m && r.state.meetings == s.meetings
            && r.state.log == t.state.log + [LogEntry(Warning, DeleteFailedMessage, t.user.id, Some(m.attrs.id))])
      && (call.Succeeded? && m.persisted ==>
            && r.meeting.attrs.googleEventId == None && r.meeting.attrs.googleSyncedAt == None
            && (m.attrs.id in s.meetings ==>
                  && r.state.meetings[m.attrs.id].googleEventId == None
                  && r.state.meetings[m.attrs.id].googleSyncedAt == None))
  {
    TokenStepFrame(env, s, ResolveUser(s.users, m).value, now, token);
  }

  /** Without a ready user, `deleteMeeting` of a synced meeting neither calls
      the calendar nor clears anything. */
  lemma DeleteInertUnlessReady(env: Env, s: State, m: Instance, now: int, token: TokenResponse, call: HttpOutcome)
    requires !Falsy(m.attrs.googleEventId) && !Ready(env, s, m, now, token)
    ensures var r := DeleteSpec(env, s, m, now, token, call);
      r.meeting == m && r.state.meetings == s.meetings && OnlyTokenTraffic(s.requests, r.state.requests)
  {
    var u := ResolveUser(s.users, m);
    if u.Some? && env.prefersSync(u.value) {
      TokenStepFrame(env, s, u.value, now, token);
    }
  }

  /** A meeting object that does not exist in storage is never written:
      neither operation changes any meeting row for it. */
  lemma TransientMeetingIsNeverSaved(env: Env, s: State, m: Instance, now: int, token: TokenResponse, call: HttpOutcome)
    requires !m.persisted
    ensures SyncSpec(env, s, m, now, token, call).state.meetings == s.meetings
    ensures DeleteSpec(env, s, m, now, token, call).state.meetings == s.meetings
  {
    var u := ResolveUser(s.users, m);
    if u.Some? {
      TokenStepFrame(env, s, u.value, now, token);
    }
  }

  /** The round trip of the state machine: syncing a never-synced meeting
      that is stored creates the event and stores the returned id; syncing
      the stored meeting again PATCHes that very event. */
  lemma {:induction false} CreateThenPatch(env: Env, s: State, m: Instance, u: User, now: int, later: int,
                                           eventId: string, token: TokenResponse, call: HttpOutcome)
    requires m.persisted && m.attrs.id in s.meetings && s.meetings[m.attrs.id] == m.attrs
    requires m.userRelation == Loaded(Some(u)) && env.prefersSync(u)
    requires env.hasValidToken(u, now) && env.hasValidToken(u, later)
    requires ShouldSyncToGoogle(m.attrs) && Falsy(m.attrs.googleEventId) && !FalsyString(eventId)
    ensures var first := SyncSpec(env, s, m, now, token, Succeeded(Some(eventId)));
      var again := Instance(first.state.meetings[m.attrs.id], true, Loaded(Some(u)));
      var second := SyncSpec(env, first.state, again, later, token, call);
      && first.state.meetings[m.attrs.id].googleEventId == Some(eventId)
      && second.state.requests == first.state.requests + [PatchEvent(u.googleAccessToken,
           ResolveCalendarId(u, env.config), eventId, BuildEventPayload(again.attrs, env.config.timeZone))]
      && second.state.meetings[m.attrs.id].googleEventId == Some(eventId)
  {
    var first := SyncSpec(env, s, m, now, token, Succeeded(Some(eventId)));
    SyncCreatesMissingEvent(env, s, m, now, token, Some(eventId));
    var again := Instance(first.state.meetings[m.attrs.id], true, Loaded(Some(u)));
    assert SameExceptSync(again.attrs, m.attrs);
    assert ShouldSyncToGoogle(again.attrs);
    assert Ready(env, first.state, again, later, token);
    SyncPatchesExistingEvent(env, first.state, again, later, token, call);
  }

  // ---------------------------------------------------------------------
  // The service object

  class CalendarService {
    const env: Env
    var meetings: map<nat, Meeting>
    var users: map<nat, User>
    var requests: seq<Request>
    var log: seq<LogEntry>

    function AsState(): State
      reads this
    {
      State(meetings, users, requests, log)
    }

    constructor (env: Env, meetings: map<nat, Meeting>, users: map<nat, User>)
      ensures this.env == env
      ensures AsState() == State(meetings, users, [], [])
    {
      this.env := env;
      this.meetings := meetings;
      this.users := users;
      this.requests := [];
      this.log := [];
    }

    method EnsureValidAccessToken(user: User, now: int, response: TokenResponse) returns (valid: bool, current: User)
      modifies this
      ensures TokenResult(valid, current, AsState()) == TokenSpec(env, old(AsState()), user, now, response)
    {
      current := user;
      if env.hasValidToken(user, now) {
        return true, current;
      }
      if Falsy(user.googleRefreshToken) {
        return false, current;
      }
      requests := requests + [RefreshGrant(user.googleRefreshToken.value)];
      match response {
        case RefreshFailed =>
          log := log + [LogEntry(Error, RefreshFailedMessage, user.id, None)];
          return false, current;
        case Granted(token, expiresIn) =>
          current := current.(googleAccessToken := token);
          current := current.(googleTokenExpiresAt := Some(now + expiresIn.GetOr(DefaultExpiresIn)));
          if user.id in users {
            users := users[user.id := users[user.id].(googleAccessToken := token, googleTokenExpiresAt := current.googleTokenExpiresAt)];
          }
          valid := env.hasValidToken(current, now);
      }
    }

    method PersistMeetingChanges(m: Instance, eventId: Option<string>, syncedAt: Option<int>) returns (saved: Instance)
      modifies this
      ensures Outcome(AsState(), saved) == PersistSpec(old(AsState()), m, eventId, syncedAt)
    {
      saved := m;
      if !m.persisted {
        return;
      }
      saved := saved.(attrs := saved.attrs.(googleEventId := eventId, googleSyncedAt := syncedAt));
      var id := m.attrs.id;
      if id in meetings {
        meetings := meetings[id := meetings[id].(googleEventId := eventId, googleSyncedAt := syncedAt)];
      }
    }

    method SyncMeeting(m: Instance, now: int, token: TokenResponse, call: HttpOutcome) returns (after: Instance)
      modifies this
      ensures Outcome(AsState(), after) == SyncSpec(env, old(AsState()), m, now, token, call)
    {
      after := m;
      if !ShouldSyncToGoogle(m.attrs) {
        return;
      }
      var user := ResolveUser(users, m);
      if user.None? || !env.prefersSync(user.value) {
        return;
      }
      var valid, u := EnsureValidAccessToken(user.value, now, token);
      if !valid {
        return;
      }
      after := SendEvent(m, u, now, call);
    }

    method SendEvent(m: Instance, u: User, now: int, call: HttpOutcome) returns (after: Instance)
      modifies this
      ensures Outcome(AsState(), after) == SendSpec(env, old(AsState()), m, u, now, call)
    {
      var payload := BuildEventPayload(m.attrs, env.config.timeZone);
      var calendarId := ResolveCalendarId(u, env.config);
      if !Falsy(m.attrs.googleEventId) {
        requests := requests + [PatchEvent(u.googleAccessToken, calendarId, m.attrs.googleEventId.value, payload)];
        if call.Failed? {
          log := log + [LogEntry(Error, SyncFailedMessage, u.id, Some(m.attrs.id))];
          return m;
        }
        after := PersistMeetingChanges(m, m.attrs.googleEventId, Some(now));
      } else {
        requests := requests + [CreateEvent(u.googleAccessToken, calendarId, payload)];
        if call.Failed? {
          log := log + [LogEntry(Error, SyncFailedMessage, u.id, Some(m.attrs.id))];
          return m;
        }
        var newId := if call.id.Some? then call.id else m.attrs.googleEventId;
        after := m.(attrs := m.attrs.(googleEventId := newId));
        after := PersistMeetingChanges(after, newId, Some(now));
      }
    }

    method DeleteMeeting(m: Instance, now: int, token: TokenResponse, call: HttpOutcome) returns (after: Instance)
      modifies this
      ensures Outcome(AsState(), after) == DeleteSpec(env, old(AsState()), m, now, token, call)
    {
      after := m;
      if Falsy(m.attrs.googleEventId) {
        after := PersistMeetingChanges(m, None, None);
        return;
      }
      var user := ResolveUser(users, m);
      if user.None? || !env.prefersSync(user.value) {
        return;
      }
      var valid, u := EnsureValidAccessToken(user.value, now, token);
      if !valid {
        return;
      }
      var calendarId := ResolveCalendarId(u, env.config);
      requests := requests + [DeleteEvent(u.googleAccessToken, calendarId, m.attrs.googleEventId.value)];
      if call.Failed? {
        log := log + [LogEntry(Warning, DeleteFailedMessage, u.id, Some(m.attrs.id))];
        return;
      }
      after := PersistMeetingChanges(m, None, None);
    }
  }
}
