/** The change detector: from a meeting's state before and after a write,
    it decides which sync task (if any) to enqueue. Each handler returns the
    action tag of the one task it dispatches, or None. */
module Observer {
  import opened Common
  import opened Models
  import opened SyncJob

  /** The meeting columns the detector can compare. */
  datatype Attribute =
    | Title | Description | Location | StartAt | EndAt
    | ExternalContactEmail | ExternalContactName
    | Status | UserId | GoogleEventId | GoogleSyncedAt

  /** The columns whose change calls for a PATCH of the remote event. */
  const SyncableAttributes: seq<Attribute> :=
    [Title, Description, Location, StartAt, EndAt, ExternalContactEmail, ExternalContactName]

  predicate AttributeChanged(original: Meeting, current: Meeting, a: Attribute) {
    match a
    case Title => original.title != current.title
    case Description => original.description != current.description
    case Location => original.location != current.location
    case StartAt => original.startAt != current.startAt
    case EndAt => original.endAt != current.endAt
    case ExternalContactEmail => original.externalContactEmail != current.externalContactEmail
    case ExternalContactName => original.externalContactName != current.externalContactName
    case Status => original.status != current.status
    case UserId => original.userId != current.userId
    case GoogleEventId => original.googleEventId != current.googleEventId
    case GoogleSyncedAt => original.googleSyncedAt != current.googleSyncedAt
  }

  /** `$meeting->wasChanged($attributes)`: some listed column changed. */
  predicate WasChanged(original: Meeting, current: Meeting, attributes: seq<Attribute>) {
    exists i :: 0 <= i < |attributes| && AttributeChanged(original, current, attributes[i])
  }

  /** The `created` handler. */
  function Created(m: Meeting): (r: Option<string>)
    ensures r.Some? <==> ShouldSyncToGoogle(m)
    ensures r.Some? ==> r.value == ActionSync
  {
    if ShouldSyncToGoogle(m) then Some(ActionSync) else None
  }

  /** Delete triggers of the `updated` handler: the status stopped being
      confirmed, or the external contact's email was removed. */
  predicate DeleteTriggered(original: Meeting, current: Meeting) {
    (IsConfirmed(original) && !IsConfirmed(current))
    || (HasExternalContact(original) && !HasExternalContact(current))
  }

  /** Sync triggers of the `updated` handler: the status just became
      confirmed, a syncable column changed, or an external email was added. */
  predicate SyncTriggered(original: Meeting, current: Meeting) {
    (!IsConfirmed(original) && IsConfirmed(current))
    || WasChanged(original, current, SyncableAttributes)
    || (!HasExternalContact(original) && HasExternalContact(current))
  }

  /** The `updated` handler. */
  function Updated(original: Meeting, current: Meeting): (r: Option<string>)
    // a meeting that stops being eligible is removed from the calendar
    ensures ShouldSyncToGoogle(original) && !ShouldSyncToGoogle(current) ==> r == Some(ActionDelete)
    // a meeting that becomes eligible is pushed to the calendar
    ensures !ShouldSyncToGoogle(original) && ShouldSyncToGoogle(current) ==> r == Some(ActionSync)
    // a delete is only ever sent for a meeting that is no longer eligible
    ensures r == Some(ActionDelete) ==> !ShouldSyncToGoogle(current)
    // a sync is only ever sent for an eligible meeting
    ensures r == Some(ActionSync) ==> ShouldSyncToGoogle(current)
    // an update that changes nothing relevant enqueues nothing
    ensures original == current ==> r.None?
    ensures r.None? || r.value == ActionSync || r.value == ActionDelete
  {
    if DeleteTriggered(original, current) then Some(ActionDelete)
    else if !ShouldSyncToGoogle(current) then None
    else if SyncTriggered(original, current) then Some(ActionSync)
    else None
  }

  /** The `deleted` handler: always a delete task. */
  function Deleted(m: Meeting): (r: Option<string>)
    ensures r == Some(ActionDelete)
  {
    Some(ActionDelete)
  }

  // ---------------------------------------------------------------------
  // Properties of the detector

  /** Delete triggers win over sync triggers, whatever else changed. */
  lemma DeleteTakesPriority(original: Meeting, current: Meeting)
    requires DeleteTriggered(original, current)
    ensures Updated(original, current) == Some(ActionDelete)
  {
  }

  /** With no delete trigger, an ineligible meeting enqueues nothing. */
  lemma IneligibleUpdateDispatchesNothing(original: Meeting, current: Meeting)
    requires !DeleteTriggered(original, current) && !ShouldSyncToGoogle(current)
    ensures Updated(original, current).None?
  {
  }

  /** With no delete trigger and an eligible meeting, a sync is enqueued
      exactly when one of the three sync triggers holds. */
  lemma EligibleUpdateSyncsIffTriggered(original: Meeting, current: Meeting)
    requires !DeleteTriggered(original, current) && ShouldSyncToGoogle(current)
    ensures Updated(original, current) == Some(ActionSync) <==> SyncTriggered(original, current)
    ensures Updated(original, current).None? <==> !SyncTriggered(original, current)
  {
  }

  /** "External email added" is subsumed by "details changed", since the
      email column is one of the syncable attributes. */
  lemma ExternalAddedImpliesDetailsChanged(original: Meeting, current: Meeting)
    requires !HasExternalContact(original) && HasExternalContact(current)
    ensures WasChanged(original, current, SyncableAttributes)
  {
    assert SyncableAttributes[5] == ExternalContactEmail;
    assert AttributeChanged(original, current, SyncableAttributes[5]);
  }

  /** The service's own write of the two sync columns, on an eligible
      meeting, enqueues nothing: a successful sync does not trigger another. */
  lemma SyncBookkeepingWriteDispatchesNothing(original: Meeting, eventId: Option<string>, syncedAt: Option<int>)
    requires ShouldSyncToGoogle(original)
    ensures Updated(original, original.(googleEventId := eventId, googleSyncedAt := syncedAt)).None?
  {
  }
}
