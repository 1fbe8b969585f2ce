/** The queued sync task. It carries the live meeting (when there still is
    one), a snapshot of the meeting's attributes, the owner's id and an
    action tag; when it runs it resolves a meeting through a fallback chain
    and hands it to the calendar service's delete or sync operation. */
module SyncJob {
  import opened Common
  import opened Models
  import opened GoogleCalendar

  const ActionSync := "sync"
  const ActionDelete := "delete"

  /** `$meeting->loadMissing('user')`. */
  function LoadMissingUser(m: Instance, users: map<nat, User>): (r: Instance)
    ensures r.attrs == m.attrs && r.persisted == m.persisted && r.userRelation.Loaded?
    ensures m.userRelation.Loaded? ==> r == m
  {
    match m.userRelation
    case Loaded(_) => m
    case NotLoaded => m.(userRelation := Loaded(Lookup(users, m.attrs.userId)))
  }

  /** The live meeting, when its user loads. */
  predicate LiveUsable(live: Option<Instance>, users: map<nat, User>) {
    live.Some? && LoadMissingUser(live.value, users).userRelation.user.Some?
  }

  /** The meeting a task works on, found by the fallback chain:
      1. the live meeting, when its user loads;
      2. else the stored row with the snapshot's (truthy) id, as persisted
         now, with its user loaded, whether or not that user exists;
      3. else a transient meeting rebuilt from the snapshot, with the user
         found by `userId`; none when that user does not exist either. */
  function Resolve(live: Option<Instance>, snapshot: Meeting, userId: nat,
                   meetings: map<nat, Meeting>, users: map<nat, User>): Option<Instance>
  {
    if LiveUsable(live, users) then Some(LoadMissingUser(live.value, users))
    else if snapshot.id != 0 && snapshot.id in meetings then
      Some(LoadMissingUser(Instance(meetings[snapshot.id], true, NotLoaded), users))
    else if userId in users then
      Some(Instance(snapshot, false, Loaded(Some(users[userId]))))
    else None
  }

  /** Which service operation `handle` calls. */
  datatype Call = NoCall | CallDelete(meeting: Instance) | CallSync(meeting: Instance)

  function Dispatch(action: string, resolved: Option<Instance>): (r: Call)
    ensures r.CallDelete? <==> resolved.Some? && action == ActionDelete
    ensures r.CallSync? <==> resolved.Some? && action != ActionDelete
    ensures r.NoCall? <==> resolved.None?
    ensures !r.NoCall? ==> r.meeting == resolved.value
  {
    match resolved
    case None => NoCall
    case Some(m) => if action == ActionDelete then CallDelete(m) else CallSync(m)
  }

  /** The storage state after `handle`. */
  function HandleSpec(env: Env, s: State, live: Option<Instance>, snapshot: Meeting, userId: nat, action: string,
                      now: int, token: TokenResponse, call: HttpOutcome): State
  {
    match Dispatch(action, Resolve(live, snapshot, userId, s.meetings, s.users))
    case NoCall => s
    case CallDelete(m) => DeleteSpec(env, s, m, now, token, call).state
    case CallSync(m) => SyncSpec(env, s, m, now, token, call).state
  }

  class SyncMeetingToGoogle {
    var meeting: Option<Instance>
    var payload: Meeting
    var userId: nat
    var action: string

    constructor (meeting: Instance, action: string := ActionSync)
      ensures this.meeting == Some(meeting) && payload == meeting.attrs
      ensures userId == meeting.attrs.userId && this.action == action
    {
      this.meeting := Some(meeting);
      this.payload := meeting.attrs;
      this.userId := meeting.attrs.userId;
      this.action := action;
    }

    method Handle(calendar: CalendarService, now: int, token: TokenResponse, call: HttpOutcome)
      modifies calendar
      ensures calendar.AsState() == HandleSpec(calendar.env, old(calendar.AsState()), meeting, payload, userId, action, now, token, call)
    {
      var resolved := Resolve(meeting, payload, userId, calendar.meetings, calendar.users);
      if resolved.None? {
        return;
      }
      if action == ActionDelete {
        var _ := calendar.DeleteMeeting(resolved.value, now, token, call);
        return;
      }
      var _ := calendar.SyncMeeting(resolved.value, now, token, call);
    }
  }

  // ---------------------------------------------------------------------
  // Properties of the resolution chain

  /** Resolution fails only when all three fallbacks fail. */
  lemma ResolveNoneIffAllFallbacksFail(live: Option<Instance>, snapshot: Meeting, userId: nat,
                                      meetings: map<nat, Meeting>, users: map<nat, User>)
    ensures Resolve(live, snapshot, userId, meetings, users).None? <==>
      && !LiveUsable(live, users)
      && (snapshot.id == 0 || snapshot.id !in meetings)
      && userId !in users
  {
  }

  /** A usable live meeting wins, and keeps its in-memory attributes. */
  lemma ResolvePrefersLiveMeeting(live: Instance, snapshot: Meeting, userId: nat,
                                  meetings: map<nat, Meeting>, users: map<nat, User>)
    requires LiveUsable(Some(live), users)
    ensures var r := Resolve(Some(live), snapshot, userId, meetings, users);
      r.Some? && r.value.attrs == live.attrs && r.value.persisted == live.persisted
      && ResolveUser(users, r.value).Some?
  {
  }

  /** Otherwise the stored row is used as persisted now, not the snapshot,
      and its user is not checked. */
  lemma ResolveUsesStoredRow(live: Option<Instance>, snapshot: Meeting, userId: nat,
                             meetings: map<nat, Meeting>, users: map<nat, User>)
    requires !LiveUsable(live, users) && snapshot.id != 0 && snapshot.id in meetings
    ensures var r := Resolve(live, snapshot, userId, meetings, users);
      r.Some? && r.value.attrs == meetings[snapshot.id] && r.value.persisted
      && ResolveUser(users, r.value) == Lookup(users, meetings[snapshot.id].userId)
  {
  }

  /** The last resort is a transient copy of the snapshot, owned by `userId`. */
  lemma ResolveRebuildsFromSnapshot(live: Option<Instance>, snapshot: Meeting, userId: nat,
                                    meetings: map<nat, Meeting>, users: map<nat, User>)
    requires !LiveUsable(live, users) && (snapshot.id == 0 || snapshot.id !in meetings) && userId in users
    ensures var r := Resolve(live, snapshot, userId, meetings, users);
      r == Some(Instance(snapshot, false, Loaded(Some(users[userId]))))
  {
  }

  // ---------------------------------------------------------------------
  // Properties of handle

  lemma HandleUnresolvedIsNoop(env: Env, s: State, live: Option<Instance>, snapshot: Meeting, userId: nat, action: string,
                               now: int, token: TokenResponse, call: HttpOutcome)
    requires Resolve(live, snapshot, userId, s.meetings, s.users).None?
    ensures HandleSpec(env, s, live, snapshot, userId, action, now, token, call) == s
  {
  }

  /** A transient meeting is never written back: running the task on one
      leaves every stored meeting row as it was. */
  lemma HandleTransientSavesNothing(env: Env, s: State, live: Option<Instance>, snapshot: Meeting, userId: nat, action: string,
                                    now: int, token: TokenResponse, call: HttpOutcome)
    requires var r := Resolve(live, snapshot, userId, s.meetings, s.users); r.Some? && !r.value.persisted
    ensures HandleSpec(env, s, live, snapshot, userId, action, now, token, call).meetings == s.meetings
  {
    var m := Resolve(live, snapshot, userId, s.meetings, s.users).value;
    TransientMeetingIsNeverSaved(env, s, m, now, token, call);
  }

  /** The action tag alone picks the operation: "delete" deletes, every
      other tag (the default "sync" included) syncs. */
  lemma HandleDispatchesOnAction(env: Env, s: State, live: Option<Instance>, snapshot: Meeting, userId: nat, action: string,
                                 now: int, token: TokenResponse, call: HttpOutcome)
    requires Resolve(live, snapshot, userId, s.meetings, s.users).Some?
    ensures var m := Resolve(live, snapshot, userId, s.meetings, s.users).value;
      HandleSpec(env, s, live, snapshot, userId, action, now, token, call)
        == if action == ActionDelete then DeleteSpec(env, s, m, now, token, call).state
           else SyncSpec(env, s, m, now, token, call).state
  {
  }
}
