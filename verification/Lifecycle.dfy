/** The sync subsystem end to end: the detector's decision becomes a queued
    task, and the task runs against the calendar service. */
module Lifecycle {
  import opened Common
  import opened Models
  import opened GoogleCalendar
  import opened SyncJob
  import opened Observer

  /** The storage state after the task the detector enqueued (if any) for
      the meeting `m` runs, given the live meeting `live` the task starts
      with (none when it starts without one) and the snapshot `m` taken at
      dispatch. This is the task as `handle` is written to work: lines 79-89
      of the job provide for a missing live meeting. */
  function RunDispatched(env: Env, s: State, decision: Option<string>, live: Option<Instance>, m: Meeting,
                         now: int, token: TokenResponse, call: HttpOutcome): State
  {
    match decision
    case None => s
    case Some(action) => HandleSpec(env, s, live, m, m.userId, action, now, token, call)
  }

  /** `SerializesModels` as the queue applies it: the meeting is reloaded
      by id from its row (`firstOrFail`), with no relation loaded. None
      means the reload throws, so the task fails before `handle` runs. */
  function RestoreQueuedMeeting(meetings: map<nat, Meeting>, m: Meeting): (r: Option<Instance>)
    ensures r.None? <==> m.id !in meetings
    ensures r.Some? ==> r.value == Instance(meetings[m.id], true, NotLoaded)
  {
    if m.id in meetings then Some(Instance(meetings[m.id], true, NotLoaded)) else None
  }

  /** The storage state after the enqueued task runs as the program runs it:
      the live meeting is restored by `SerializesModels`, and a failed
      restore ends the task with nothing changed. */
  function RunQueued(env: Env, s: State, decision: Option<string>, m: Meeting,
                     now: int, token: TokenResponse, call: HttpOutcome): (r: State)
    ensures m.id in s.meetings ==>
      r == RunDispatched(env, s, decision, Some(Instance(s.meetings[m.id], true, NotLoaded)), m, now, token, call)
  {
    match RestoreQueuedMeeting(s.meetings, m)
    case None => s
    case Some(live) => RunDispatched(env, s, decision, Some(live), m, now, token, call)
  }

  /** As written, the delete task of a deleted meeting never reaches the
      calendar: its row is gone, so restoring the meeting throws, and the
      event the meeting still names stays on the calendar. */
  lemma DeletedMeetingEventIsOrphaned(env: Env, s: State, m: Meeting, now: int,
                                      token: TokenResponse, call: HttpOutcome)
    requires m.id !in s.meetings
    ensures Deleted(m) == Some(ActionDelete)
    ensures RunQueued(env, s, Deleted(m), m, now, token, call) == s
  {
  }

  /** A stored meeting whose owner exists, prefers sync and holds a valid token. */
  predicate OwnerReady(env: Env, s: State, m: Meeting, now: int) {
    m.id in s.meetings && s.meetings[m.id] == m
    && m.userId in s.users && env.prefersSync(s.users[m.userId])
    && env.hasValidToken(s.users[m.userId], now)
  }

  /** Creating an eligible meeting, once the queued sync succeeds, stores the
      event id the calendar returned and the sync time. */
  lemma {:induction false} CreatedMeetingGetsEvent(env: Env, s: State, m: Meeting, now: int,
                                                   token: TokenResponse, eventId: string)
    requires OwnerReady(env, s, m, now)
    requires ShouldSyncToGoogle(m) && Falsy(m.googleEventId)
    ensures var after := RunDispatched(env, s, Created(m), Some(Instance(m, true, NotLoaded)), m, now, token, Succeeded(Some(eventId)));
      after.meetings[m.id].googleEventId == Some(eventId) && after.meetings[m.id].googleSyncedAt == Some(now)
  {
    var live := Instance(m, true, NotLoaded);
    var resolved := Resolve(Some(live), m, m.userId, s.meetings, s.users);
    ResolvePrefersLiveMeeting(live, m, m.userId, s.meetings, s.users);
    assert resolved.value == live.(userRelation := Loaded(Some(s.users[m.userId])));
    SyncCreatesMissingEvent(env, s, resolved.value, now, token, Some(eventId));
  }

  /** A synced meeting that stops being eligible is removed from the calendar
      and, once the DELETE succeeds, both sync columns are cleared. */
  lemma {:induction false} IneligibleMeetingLosesEvent(env: Env, s: State, original: Meeting, current: Meeting,
                                                       now: int, token: TokenResponse)
    requires OwnerReady(env, s, current, now)
    requires ShouldSyncToGoogle(original) && !ShouldSyncToGoogle(current)
    requires !Falsy(current.googleEventId)
    ensures Updated(original, current) == Some(ActionDelete)
    ensures var after := RunDispatched(env, s, Updated(original, current), Some(Instance(current, true, NotLoaded)), current, now, token, Succeeded(None));
      after.meetings[current.id].googleEventId.None? && after.meetings[current.id].googleSyncedAt.None?
  {
    var live := Instance(current, true, NotLoaded);
    var resolved := Resolve(Some(live), current, current.userId, s.meetings, s.users);
    ResolvePrefersLiveMeeting(live, current, current.userId, s.meetings, s.users);
    DeleteClearsOnlyAfterSuccess(env, s, resolved.value, now, token, Succeeded(None));
  }

  /** Deleting a synced meeting deletes the remote event when the task
      runs without a live meeting, as lines 79-89 of the job provide: no
      row has the snapshot's id, so the task rebuilds the meeting from the
      snapshot, with the owner looked up by id, and sends the DELETE. (The
      queue as configured never starts that task: see
      `DeletedMeetingEventIsOrphaned`.) */
  lemma {:induction false} DeletedMeetingStillDeletesEvent(env: Env, s: State, m: Meeting, now: int,
                                                          token: TokenResponse, call: HttpOutcome)
    requires m.id !in s.meetings && m.userId in s.users
    requires env.prefersSync(s.users[m.userId]) && env.hasValidToken(s.users[m.userId], now)
    requires !Falsy(m.googleEventId)
    ensures var u := s.users[m.userId];
      var after := RunDispatched(env, s, Deleted(m), None, m, now, token, call);
      after.requests == s.requests + [DeleteEvent(u.googleAccessToken, ResolveCalendarId(u, env.config), m.googleEventId.value)]
      && after.meetings == s.meetings
  {
    var resolved := Resolve(None, m, m.userId, s.meetings, s.users);
    ResolveRebuildsFromSnapshot(None, m, m.userId, s.meetings, s.users);
    TransientMeetingIsNeverSaved(env, s, resolved.value, now, token, call);
  }
}
