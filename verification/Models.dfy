/** The records the calendar-sync core works on: a meeting row (the columns of
    the `meetings` table that the sync code reads and writes), the
    sync-relevant part of a user row, and an in-memory meeting object. */
module Models {
  import opened Common

  datatype Status = Pending | Confirmed | Cancelled

  /** One row of the `meetings` table. Timestamps are seconds. */
  datatype Meeting = Meeting(
    id: nat,
    userId: nat,
    title: string,
    description: Option<string>,
    location: Option<string>,
    startAt: int,
    endAt: int,
    status: Status,
    externalContactEmail: Option<string>,
    externalContactName: Option<string>,
    googleEventId: Option<string>,
    googleSyncedAt: Option<int>
  )

  /** The user columns the calendar client reads and writes. */
  datatype User = User(
    id: nat,
    googleAccessToken: Option<string>,
    googleRefreshToken: Option<string>,
    googleTokenExpiresAt: Option<int>,
    googleCalendarId: Option<string>
  )

  /** Whether the `user` relation of an in-memory meeting has been loaded,
      and with what (a loaded relation may hold no user). */
  datatype Relation = NotLoaded | Loaded(user: Option<User>)

  /** An in-memory meeting object: its attributes, whether it exists in
      storage (Eloquent's `exists`), and its `user` relation. */
  datatype Instance = Instance(attrs: Meeting, persisted: bool, userRelation: Relation)

  predicate IsConfirmed(m: Meeting) {
    m.status == Confirmed
  }

  predicate HasExternalContact(m: Meeting) {
    !Falsy(m.externalContactEmail)
  }

  /** A meeting belongs on the remote calendar exactly when it is confirmed
      and has an external contact. */
  predicate ShouldSyncToGoogle(m: Meeting) {
    IsConfirmed(m) && HasExternalContact(m)
  }

  /** `$meeting->user`: the loaded relation, or else the user row that
      `user_id` points at. */
  function ResolveUser(users: map<nat, User>, m: Instance): Option<User> {
    match m.userRelation
    case Loaded(u) => u
    case NotLoaded => Lookup(users, m.attrs.userId)
  }
}
