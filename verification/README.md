# NubeAgenda core, modelled in Dafny

NubeAgenda is a Laravel meeting-agenda application. This project models its
core and proves properties of the model:

- **Calendar sync.** The meeting observer decides from a meeting's state
  before and after a write whether to enqueue a `sync` task, a `delete`
  task or nothing (`Observer`). The queued task resolves a meeting by a
  fallback chain: the live object, then the stored row, then a transient
  copy rebuilt from its snapshot. It then calls the calendar service
  (`SyncJob`). The service refreshes the owner's access token, builds the
  event payload, and creates, patches or deletes the remote event. It
  persists `google_event_id` and `google_synced_at` only after a successful
  call (`GoogleCalendar`). `Lifecycle` composes the three parts end to end.
- **Validation rules.** The meeting-overlap rule (`Overlap`): an ordering
  check, then a resource match (same location or a shared responsible) and
  an inclusive time-conflict test over the existing meetings. The
  corporate-email rule (`CorporateEmail`): normalise the configured domain
  list, extract the email's domain, test membership. The domain list is
  modelled both as written and as evidently intended (see "## Findings").
- **Component state.**
  - The meeting-creation form (`MeetingForm`): contact selection,
    suggestions, defaults, and the record and pivot lists it stores.
  - The weekly agenda (`AgendaView`): week navigation over day numbers,
    the category filter and the grouped calendar.
  - The meeting-reasons screen (`Reasons`): a form and delete-confirmation
    state machine over the stored reasons.
  - The profile form (`Profile`).

Modules and their roles:

- `Models` holds the records: the meeting row has the columns of
  `database/migrations/2024_01_01_000004_create_meetings_table.php`.
- `Common` holds the PHP string and collection semantics the code relies on:
  - falsy strings (`''` and `'0'`);
  - `trim` and `blank`;
  - ASCII lower-casing;
  - `unique` keeping first occurrences;
  - removal of every occurrence.

Where the component updates its own fields, it is a class. Each method is
proved equal to a pure specification function of the old state. The
properties are lemmas about those functions.

HTTP calls are not made. Every call's outcome is a parameter: a token
grant, or a calendar call that succeeds (with or without a returned id) or
fails. Every request that would be sent is appended to `State.requests`,
and every log line to `State.log`, so "no remote call" and "nothing
persisted" are statements about state. The following also become
parameters:

- the clock (`now`, `today`);
- the configuration (`Env.config`, the configured domain list);
- date parsing;
- the user predicates `prefersGoogleCalendarSync` and
  `hasValidGoogleAccessToken`, which are not defined in the source
  (`Env`);
- validation outcomes (a `validated` flag).

## Model

| member | source | states |
|---|---|---|
| Observer.Created | app/Observers/MeetingObserver.php:23-28 | a sync task is dispatched exactly when the meeting should sync, and nothing otherwise |
| Observer.Updated | app/Observers/MeetingObserver.php:30-54 | at most one task, tagged sync or delete; a meeting that stops being eligible gets a delete and one that becomes eligible gets a sync; a delete is only sent for an ineligible meeting and a sync only for an eligible one; an unchanged meeting dispatches nothing |
| Observer.Deleted | app/Observers/MeetingObserver.php:56-59 | a delete task is always dispatched, whatever the meeting's status or contact |
| Observer.DeleteTakesPriority | app/Observers/MeetingObserver.php:32-41 | if the status stopped being confirmed or the external email was removed, the handler dispatches a delete and no sync, whatever else changed |
| Observer.IneligibleUpdateDispatchesNothing | app/Observers/MeetingObserver.php:43-45 | with no delete trigger, a meeting that should not sync dispatches nothing |
| Observer.EligibleUpdateSyncsIffTriggered | app/Observers/MeetingObserver.php:47-53 | with no delete trigger and an eligible meeting, a sync is dispatched iff it was just confirmed, a syncable column changed or an external email was added; otherwise nothing |
| Observer.ExternalAddedImpliesDetailsChanged | app/Observers/MeetingObserver.php:13-21 | adding an external email is a change of a syncable attribute, since the email column is in the syncable list |
| Observer.SyncBookkeepingWriteDispatchesNothing | app/Observers/MeetingObserver.php:30-54 | the service's own write of the two sync columns on an eligible meeting enqueues nothing, so a sync does not re-trigger itself |
| SyncJob.SyncMeetingToGoogle.constructor | app/Jobs/SyncMeetingToGoogle.php:30-38 | the task captures the meeting, its attribute snapshot, the owner's user id and the action, which defaults to sync |
| SyncJob.SyncMeetingToGoogle.Handle | app/Jobs/SyncMeetingToGoogle.php:40-55 | the new service state is the dispatch specification: nothing when no meeting resolves, the delete operation for action delete, the sync operation otherwise |
| SyncJob.LoadMissingUser | app/Jobs/SyncMeetingToGoogle.php:59-63 | the user relation ends up loaded, and an already loaded relation is kept as it is |
| SyncJob.Dispatch | app/Jobs/SyncMeetingToGoogle.php:42-54 | delete is called iff a meeting resolved and the action is delete, sync iff one resolved and the action is anything else, never both, and nothing iff none resolved |
| SyncJob.Resolve | app/Jobs/SyncMeetingToGoogle.php:57-90 | the fallback chain itself: the live meeting when its user loads, else the stored row with the snapshot's id, else a transient copy of the snapshot with the user found by id, else none; its cases are the four lemmas below |
| SyncJob.HandleSpec | app/Jobs/SyncMeetingToGoogle.php:40-55 | the task's effect on storage: resolve, then delete or sync; its properties are `HandleUnresolvedIsNoop`, `HandleTransientSavesNothing` and `HandleDispatchesOnAction` |
| SyncJob.ResolveNoneIffAllFallbacksFail | app/Jobs/SyncMeetingToGoogle.php:57-90 | resolution gives no meeting iff there is no live meeting with a user, no stored row for the snapshot's id and no user with the snapshot's user id |
| SyncJob.ResolvePrefersLiveMeeting | app/Jobs/SyncMeetingToGoogle.php:59-66 | a live meeting whose user loads is used first, with its in-memory attributes |
| SyncJob.ResolveUsesStoredRow | app/Jobs/SyncMeetingToGoogle.php:68-77 | otherwise the stored row with the snapshot's id is used as persisted now, and its user is not checked |
| SyncJob.ResolveRebuildsFromSnapshot | app/Jobs/SyncMeetingToGoogle.php:79-89 | otherwise a transient (non-persisted) copy of the snapshot is used, owned by the user with the stored user id |
| SyncJob.HandleUnresolvedIsNoop | app/Jobs/SyncMeetingToGoogle.php:42-46 | if no meeting resolves, handle changes nothing and sends nothing |
| SyncJob.HandleTransientSavesNothing | app/Jobs/SyncMeetingToGoogle.php:79-85 | a task run on a rebuilt transient meeting leaves every stored meeting row unchanged |
| SyncJob.HandleDispatchesOnAction | app/Jobs/SyncMeetingToGoogle.php:48-54 | the action tag alone picks the operation: delete deletes, any other tag syncs |
| GoogleCalendar.CalendarService.constructor | app/Services/GoogleCalendarService.php:14-15 | the service starts from the given storage with no requests and no log entries |
| GoogleCalendar.CalendarService.EnsureValidAccessToken | app/Services/GoogleCalendarService.php:104-139 | answer, user and new state equal the token specification on the old state |
| GoogleCalendar.CalendarService.PersistMeetingChanges | app/Services/GoogleCalendarService.php:196-203 | the new state and meeting equal the persist specification |
| GoogleCalendar.CalendarService.SyncMeeting | app/Services/GoogleCalendarService.php:16-60 | the new state and meeting equal the sync specification |
| GoogleCalendar.CalendarService.SendEvent | app/Services/GoogleCalendarService.php:32-59 | the new state and meeting equal the send specification: patch or create, then persist or log |
| GoogleCalendar.CalendarService.DeleteMeeting | app/Services/GoogleCalendarService.php:62-102 | the new state and meeting equal the delete specification |
| GoogleCalendar.TokenSpec | app/Services/GoogleCalendarService.php:104-139 | the token step as a function of the storage state and the grant outcome; a grant updates only the two token columns of the stored user row; its properties are the `Token…` lemmas below |
| GoogleCalendar.SyncSpec | app/Services/GoogleCalendarService.php:16-60 | the sync operation as a function of the state and the call outcomes; its properties are the `Sync…` lemmas below |
| GoogleCalendar.SendSpec | app/Services/GoogleCalendarService.php:32-59 | the patch-or-create request and what a success or a failure leaves behind; proved in `SyncPatchesExistingEvent`, `SyncCreatesMissingEvent` and `SyncFailurePersistsNothing` |
| GoogleCalendar.DeleteSpec | app/Services/GoogleCalendarService.php:62-102 | the delete operation as a function of the state and the call outcomes; its properties are the `Delete…` lemmas below |
| Models.ResolveUser | app/Services/GoogleCalendarService.php:187-194 | a loaded user relation is used as loaded (even when it holds no user); otherwise the owner is looked up by `user_id` |
| GoogleCalendar.DropOmitted | app/Services/GoogleCalendarService.php:163 | keeps exactly the entries whose value is neither null nor '', and never more entries than given |
| GoogleCalendar.AttendeesOf | app/Services/GoogleCalendarService.php:159-161 | attendees hold exactly one entry, the external contact's email and name, iff there is an external contact, and none otherwise |
| GoogleCalendar.FullPayload | app/Services/GoogleCalendarService.php:143-162 | seven entries with the payload keys; summary is the title, description and location are the meeting's (null when absent) |
| GoogleCalendar.BuildEventPayload | app/Services/GoogleCalendarService.php:141-164 | the payload has at most the seven top-level entries |
| GoogleCalendar.PayloadEntriesAreFilled | app/Services/GoogleCalendarService.php:163 | every entry left in the payload has one of the seven keys and a value that is neither null nor '' |
| GoogleCalendar.PayloadAlwaysHasTimesStatusAttendees | app/Services/GoogleCalendarService.php:147-161 | start and end (in the application time zone), status 'confirmed' and the attendees list, possibly empty, are always in the payload |
| GoogleCalendar.PayloadHasTextIffNotEmpty | app/Services/GoogleCalendarService.php:143-163 | summary, description and location are in the payload iff they are neither null nor '' |
| GoogleCalendar.ResolveCalendarId | app/Services/GoogleCalendarService.php:166-169 | the user's calendar id when truthy; otherwise the configured id cast to a string: 'primary' when the key is absent, '' when it is present with null, its text otherwise |
| GoogleCalendar.PersistSpec | app/Services/GoogleCalendarService.php:196-203 | a meeting that does not exist in storage is never saved; otherwise, of the modelled columns, only its two sync columns change, and users, requests, log and every other row stay as they were |
| GoogleCalendar.TokenValidSendsNothing | app/Services/GoogleCalendarService.php:106-108 | with a valid token the answer is true, with no request and no change |
| GoogleCalendar.TokenWithoutRefreshTokenFails | app/Services/GoogleCalendarService.php:110-113 | with no refresh token the answer is false, with no request and no change |
| GoogleCalendar.TokenRefreshFailureKeepsUser | app/Services/GoogleCalendarService.php:115-128 | a failed refresh sends one grant request, logs an error, answers false and leaves the user unchanged |
| GoogleCalendar.TokenRefreshStoresGrant | app/Services/GoogleCalendarService.php:115-138 | a successful refresh sends one grant request, stores the new access token and an expiry of now plus expires_in (3600 when absent), in memory and in the two token columns of the stored row, leaving every other column and every other user as stored, and answers whether the refreshed token is valid |
| GoogleCalendar.TokenStepFrame | app/Services/GoogleCalendarService.php:104-139 | the token step changes no meeting row and no other user, and sends at most the one refresh-grant request |
| GoogleCalendar.SyncInertUnlessEligibleAndReady | app/Services/GoogleCalendarService.php:18-30 | if the meeting should not sync, has no owner, the owner does not prefer sync or no valid token can be obtained, no calendar call is made and the sync columns are unchanged |
| GoogleCalendar.SyncPatchesExistingEvent | app/Services/GoogleCalendarService.php:36-52 | with an event id, one PATCH of that event is sent, and on success the id is kept and synced_at = now is persisted |
| GoogleCalendar.SyncCreatesMissingEvent | app/Services/GoogleCalendarService.php:41-52 | without an event id, one POST is sent, and on success the returned id and synced_at = now are persisted |
| GoogleCalendar.SyncFailurePersistsNothing | app/Services/GoogleCalendarService.php:53-59 | a failed calendar call logs an error and persists nothing to any meeting row |
| GoogleCalendar.DeleteWithoutEventIsIdempotent | app/Services/GoogleCalendarService.php:64-71 | without an event id no request is sent, both sync columns end up null, and repeating the delete changes nothing more |
| GoogleCalendar.DeleteClearsOnlyAfterSuccess | app/Services/GoogleCalendarService.php:85-101 | with an event id one DELETE is sent; both sync columns are cleared only when it succeeds, and kept when it fails |
| GoogleCalendar.DeleteInertUnlessReady | app/Services/GoogleCalendarService.php:73-83 | with no owner, no sync preference or no valid token, nothing is sent and the sync columns are kept |
| GoogleCalendar.TransientMeetingIsNeverSaved | app/Services/GoogleCalendarService.php:196-203 | sync and delete of a meeting that does not exist in storage leave every stored meeting row unchanged |
| GoogleCalendar.CreateThenPatch | app/Services/GoogleCalendarService.php:36-52 | a successful create followed by a sync of the saved meeting patches the created event and keeps its id: unsynced, then created, then patched |
| Lifecycle.CreatedMeetingGetsEvent | app/Observers/MeetingObserver.php:23-28 | creating an eligible meeting whose owner is ready, once the queued sync succeeds, stores the returned event id and the sync time |
| Lifecycle.IneligibleMeetingLosesEvent | app/Observers/MeetingObserver.php:30-41 | a synced meeting that stops being eligible dispatches a delete, and once the DELETE succeeds both sync columns are cleared |
| Lifecycle.RestoreQueuedMeeting | app/Jobs/SyncMeetingToGoogle.php:17 | `SerializesModels` reloads the meeting from its row by id; the reload fails exactly when the row is gone |
| Lifecycle.RunQueued | app/Jobs/SyncMeetingToGoogle.php:17 | the enqueued task as the queue runs it: with the meeting's row present it is the task started on that stored row |
| Lifecycle.DeletedMeetingEventIsOrphaned | app/Jobs/SyncMeetingToGoogle.php:17 | the delete task of a meeting whose row is gone fails while restoring it, so nothing is sent and the calendar event is left behind |
| Lifecycle.DeletedMeetingStillDeletesEvent | app/Jobs/SyncMeetingToGoogle.php:79-89 | what lines 79-89 do when the task runs with no live meeting: the meeting is rebuilt from the snapshot, the DELETE goes to the owner's calendar and no row is saved (under `SerializesModels` the program's delete task fails before `handle` once the row is gone; see "## Findings") |
| Overlap.DataGet | app/Rules/PreventMeetingOverlap.php:34-35 | a present key gives its value, even a null one; a missing key gives the default |
| Overlap.Wrap | app/Rules/PreventMeetingOverlap.php:50 | null becomes [], a list stays itself, any other value becomes a one-element list |
| Overlap.AnyConflict | app/Rules/PreventMeetingOverlap.php:57-80 | true iff some existing meeting matches on resource and on time |
| Overlap.ResourceMatch | app/Rules/PreventMeetingOverlap.php:58-70 | the first `where` group: the same non-blank location, or one of the submitted responsible ids among the meeting's responsibles; used by `AnyConflict` and `FailsIffSomeMeetingConflicts` |
| Overlap.TimeConflict | app/Rules/PreventMeetingOverlap.php:72-79 | the second `where` group: either existing bound inside [start, end], or the existing meeting enclosing it; characterised by `TimeConflictIsClosedIntersection` |
| Overlap.Validate | app/Rules/PreventMeetingOverlap.php:32-85 | only passes with a bound missing; aborts iff both bounds are present and one cannot be parsed; fails with the ordering message iff both parse and end <= start; fails with the overlap message only for a conflicting meeting; no other verdict |
| Overlap.MissingBoundPasses | app/Rules/PreventMeetingOverlap.php:37-39 | the rule passes when the start or the end value is missing |
| Overlap.NoResourceNeverOverlaps | app/Rules/PreventMeetingOverlap.php:53-55 | with a blank location and no responsibles there is no overlap failure |
| Overlap.FailsIffSomeMeetingConflicts | app/Rules/PreventMeetingOverlap.php:57-84 | with both bounds parsed and well ordered, the rule fails iff some existing meeting matches on both resource and time |
| Overlap.TimeConflictIsClosedIntersection | app/Rules/PreventMeetingOverlap.php:72-79 | for a well-formed existing meeting the time condition equals closed-interval intersection |
| Overlap.BackToBackConflicts | app/Rules/PreventMeetingOverlap.php:72-79 | meetings that only touch at an endpoint conflict |
| Overlap.CamelCaseKeyFirst | app/Rules/PreventMeetingOverlap.php:34-35 | the camelCase keys are read in preference to the snake_case ones |
| CorporateEmail.LTrimAt | app/Rules/CorporateEmail.php:19 | removes exactly the leading '@' characters and keeps the rest |
| CorporateEmail.NormaliseDomain | app/Rules/CorporateEmail.php:17-20 | a normalised domain is lower-case and has no blank at either end |
| CorporateEmail.DropFalsy | app/Rules/CorporateEmail.php:21 | the intended `filter()`: keeps exactly the truthy strings |
| CorporateEmail.NormaliseEach | app/Rules/CorporateEmail.php:16-20 | normalises every configured entry, position by position |
| CorporateEmail.ApprovedDomains | app/Rules/CorporateEmail.php:16-23 | the intended list: duplicate-free and holding exactly the truthy normalised entries |
| CorporateEmail.ApprovedDomainsAreNormal | app/Rules/CorporateEmail.php:16-23 | every approved domain is non-empty, lower-case and trimmed |
| CorporateEmail.AfterLast | app/Rules/CorporateEmail.php:31-33 | the suffix after the last '@', holding no '@', or the whole value when there is none |
| CorporateEmail.EmailDomain | app/Rules/CorporateEmail.php:29-35 | the domain is lower-case and has no '@'; a value without '@' is its own lower-cased domain |
| CorporateEmail.Validate | app/Rules/CorporateEmail.php:14-40 | the intended rule: passes iff every configured entry normalises to a falsy string, or the email's domain is truthy and equals some normalised entry |
| CorporateEmail.ApprovedDomainsAsWritten | app/Rules/CorporateEmail.php:16-23 | the list as built: duplicate-free, empty iff nothing is configured, and holding every normalised entry, blank ones included |
| CorporateEmail.ValidateAsWritten | app/Rules/CorporateEmail.php:14-40 | the rule as written: passes iff nothing is configured or the email's domain equals some normalised entry, blank ones included |
| CorporateEmail.BlankEntryBlocksEveryDomain | app/Rules/CorporateEmail.php:16-39 | as written, a non-empty configuration whose every entry is blank (null, '' or '0' once normalised) rejects every email whose domain is truthy |
| CorporateEmail.BlankEntriesAcceptEveryEmail | app/Rules/CorporateEmail.php:16-27 | as intended, the same configuration approves no domain and so accepts every value |
| CorporateEmail.TruthyNotAmongFalsy | app/Rules/CorporateEmail.php:36 | a truthy domain is never among entries that are all falsy |
| CorporateEmail.BlankEntryAdmitsEmptyDomain | app/Rules/CorporateEmail.php:16-37 | as written, a null entry added to any list admits a value with an empty domain; as intended it changes nothing, and the list still rejects that value when it holds a real domain |
| CorporateEmail.DropFalsyKeepsTruthy | app/Rules/CorporateEmail.php:21 | the intended `filter()` leaves a list of truthy strings as it is |
| CorporateEmail.AsWrittenAgreesWithoutBlankEntries | app/Rules/CorporateEmail.php:16-37 | with no entry that normalises to a falsy string, the rule as written and as intended give the same verdict |
| CorporateEmail.DropFalsyAppendFalsy | app/Rules/CorporateEmail.php:21 | the intended `filter()` drops a falsy string appended to the list |
| CorporateEmail.NormaliseEachAppend | app/Rules/CorporateEmail.php:17-20 | normalising a list with one more entry appends that entry's normalised form |
| CorporateEmail.BlankEntryDropped | app/Rules/CorporateEmail.php:16-23 | an entry that normalises to '' or '0' leaves the intended approved-domain list unchanged |
| CorporateEmail.BlankEntryIgnored | app/Rules/CorporateEmail.php:14-40 | so such an entry changes no verdict of the intended rule |
| CorporateEmail.SameDomainsSameVerdict | app/Rules/CorporateEmail.php:25-39 | the intended verdict depends on the configuration only through its approved-domain list |
| CorporateEmail.EmptyListAcceptsAll | app/Rules/CorporateEmail.php:25-27 | with no domain configured every value passes |
| CorporateEmail.CaseInsensitive | app/Rules/CorporateEmail.php:29 | the verdict does not depend on the letter case of the submitted value |
| CorporateEmail.DomainCaseInsensitive | app/Rules/CorporateEmail.php:18 | normalisation does not depend on the letter case of a configured entry |
| CorporateEmail.LeadingAtIsStripped | app/Rules/CorporateEmail.php:18-20 | '@acme.com' normalises to 'acme.com' |
| CorporateEmail.BlankBeforeAtKeepsAt | app/Rules/CorporateEmail.php:18-20 | since '@' is stripped before blanks are trimmed, ' @acme.com' normalises to '@acme.com' |
| CorporateEmail.NormaliseNotIdempotent | app/Rules/CorporateEmail.php:18-20 | normalising such an entry a second time changes it again |
| CorporateEmail.EntryWithAtNeverMatches | app/Rules/CorporateEmail.php:29-39 | an approved entry that kept its '@' never equals any email domain |
| MeetingForm.TopOfNextHour | app/Volt/Meetings/CreateMeeting.php:229 | a whole hour, strictly after now and at most an hour later |
| MeetingForm.WithContact | app/Volt/Meetings/CreateMeeting.php:167-169 | the id is in the result, the old ids stay first and in order, nothing else is added, and a duplicate-free selection stays duplicate-free |
| MeetingForm.WithContactIdempotent | app/Volt/Meetings/CreateMeeting.php:167-169 | selecting the same contact twice is selecting it once |
| MeetingForm.SelectThenRemoveRestores | app/Volt/Meetings/CreateMeeting.php:161-183 | adding an absent id and removing it gives back the original list |
| MeetingForm.Responsibles | app/Volt/Meetings/CreateMeeting.php:203-212 | the responsibles are duplicate-free and always include the creator, hold exactly the submitted ids and the creator, and are the unique submitted ids when the creator is among them |
| MeetingForm.NullIfBlank | app/Volt/Meetings/CreateMeeting.php:194-196 | blank values become null and other values are kept |
| MeetingForm.Candidates | app/Volt/Meetings/CreateMeeting.php:139-153 | exactly the contacts that match the search (any contact when it is blank) and are not selected |
| MeetingForm.Suggestions | app/Volt/Meetings/CreateMeeting.php:137-156 | the first min(5, n) of the n candidates, in their order: stored contacts, none already selected, each matching a non-blank search; when there are at most 5 candidates, all of them |
| MeetingForm.Defaults | app/Volt/Meetings/CreateMeeting.php:227-242 | the start is the top of the hour after now and the end exactly one hour later; the signed-in user is the only responsible; the contact selection and search are cleared; the other fields are emptied and the success message is kept |
| MeetingForm.Select | app/Volt/Meetings/CreateMeeting.php:161-172 | an id not in storage changes nothing, not even the search; a stored id gives the selection with that id appended once when absent (unchanged when present), the search is cleared, duplicates are not introduced and no other field changes |
| MeetingForm.Remove | app/Volt/Meetings/CreateMeeting.php:177-183 | every copy of the id leaves, every other id keeps its multiplicity, a selection without the id is left as it is, and no other field changes |
| MeetingForm.RemoveKeepsOrder | app/Volt/Meetings/CreateMeeting.php:177-183 | removal splits over any cut of the selection, so the remaining ids keep their relative order |
| Common.Map | app/Rules/CorporateEmail.php:17 | Laravel `map()`: the function applied at every position, length kept |
| Common.MapAppend | app/Rules/CorporateEmail.php:17 | mapping a list with one more element appends that element's image |
| Common.RemoveAll | app/Volt/Meetings/CreateMeeting.php:179-182 | `array_values(array_filter(...))` with `!==`: exactly the other elements remain, each with its multiplicity, and a duplicate-free list stays duplicate-free |
| Common.RemoveAllAppend | app/Volt/Meetings/CreateMeeting.php:179-182 | the filter works element by element, so it distributes over concatenation and keeps order |
| Common.Unique | app/Volt/Meetings/CreateMeeting.php:203-206 | `unique()`: a duplicate-free list holding exactly the elements of the input |
| Common.UniqueKeepsFirstOccurrenceOrder | app/Volt/Meetings/CreateMeeting.php:203-206 | the kept elements appear in the order of their first occurrence in the input |
| Common.Trim | resources/views/meetings/reasons.blade.php:47-53 | PHP `trim`: the result neither starts nor ends with a blank |
| Common.TrimRemovesOnlyBlanks | resources/views/meetings/reasons.blade.php:47-53 | and it is the infix left once leading and trailing blanks alone are cut off |
| MeetingForm.SelectThenRemoveRestoresSelection | app/Volt/Meetings/CreateMeeting.php:161-183 | selecting an unselected stored contact and removing it restores the form, except that the search is cleared |
| MeetingForm.Record | app/Volt/Meetings/CreateMeeting.php:188-217 | a blank agenda or location is stored as null and a non-blank one as given; reason and visibility are stored as given; responsibles are duplicate-free, include the creator and hold exactly the submitted ids plus the creator; contacts are the selected ids without duplicates |
| MeetingForm.CreateMeetingForm.constructor | app/Volt/Meetings/CreateMeeting.php:42-45 | mount starts the form from its defaults |
| MeetingForm.CreateMeetingForm.InitializeDefaults | app/Volt/Meetings/CreateMeeting.php:227-242 | the form becomes the defaults, keeping the success message |
| MeetingForm.CreateMeetingForm.SelectContact | app/Volt/Meetings/CreateMeeting.php:161-172 | the form becomes the selection specification |
| MeetingForm.CreateMeetingForm.RemoveContact | app/Volt/Meetings/CreateMeeting.php:177-183 | the form becomes the removal specification: every copy of the id leaves, the other ids keep their multiplicity and order, and nothing else changes |
| MeetingForm.CreateMeetingForm.CreateMeeting | app/Volt/Meetings/CreateMeeting.php:188-222 | an invalid form stores nothing and changes nothing; a valid one stores the record and resets the form to its defaults with the success message |
| AgendaView.Weekday | app/Volt/Meetings/Agenda.php:117 | a weekday number from 0 (Monday) to 6 |
| AgendaView.StartOfWeek | app/Volt/Meetings/Agenda.php:117 | a Monday, at most six days before the date |
| AgendaView.WeekOf | app/Volt/Meetings/Agenda.php:115-122 | exactly 7 consecutive days from the Monday of the week containing the date, including the date |
| AgendaView.InWeekIffInRange | app/Volt/Meetings/Agenda.php:90-110 | a day is displayed iff it lies between the week's first and last day |
| AgendaView.WeekOfIsStable | app/Volt/Meetings/Agenda.php:115-122 | every displayed day lies in that same week |
| AgendaView.NormalizeDate | app/Volt/Meetings/Agenda.php:155-166 | today for an empty or unparsable value, otherwise the day the value denotes |
| AgendaView.WeekBefore | app/Volt/Meetings/Agenda.php:58-62 | the selected date moves exactly 7 days before the current date, and the category is kept |
| AgendaView.WeekAfter | app/Volt/Meetings/Agenda.php:65-69 | the selected date moves exactly 7 days after the current date, and the category is kept |
| AgendaView.NextUndoesPrevious | app/Volt/Meetings/Agenda.php:58-69 | the next week after the previous week restores the date, and vice versa |
| AgendaView.NavigationShiftsDisplayedWeek | app/Volt/Meetings/Agenda.php:58-122 | navigating shifts every displayed day by exactly 7 |
| AgendaView.CategoryFilter | app/Volt/Meetings/Agenda.php:50-53 | an empty or falsy value becomes null and any other value is kept |
| AgendaView.GoToTodayClearsDateFilter | app/Volt/Meetings/Agenda.php:74-85 | after going to today, the view is filtered iff a category is set |
| AgendaView.IsFiltered | app/Volt/Meetings/Agenda.php:82-85 | the view is filtered iff a category is set or the selected date is not today; used by `GoToTodayClearsDateFilter` |
| AgendaView.ShownEntries | app/Volt/Meetings/Agenda.php:96-105 | exactly the meetings dated in the range and matching the category filter, each as many times as it occurs in the input |
| AgendaView.OnDay | app/Volt/Meetings/Agenda.php:107-109 | exactly the meetings dated on the day, each as many times as it occurs in the input |
| AgendaView.Calendar | app/Volt/Meetings/Agenda.php:90-110 | only days of the displayed week, each with a non-empty group of meetings of that day matching the filter; every shown meeting is in its day's group, as many times as it occurs in the input |
| AgendaView.MeetingsFor | app/Volt/Meetings/Agenda.php:139-142 | a day's group, or empty for a day with no meetings |
| AgendaView.NoMeetingsOutsideWeek | app/Volt/Meetings/Agenda.php:90-142 | a day outside the displayed week has no meetings |
| AgendaView.Agenda.constructor | app/Volt/Meetings/Agenda.php:34-37 | no date and no category selected |
| AgendaView.Agenda.Mount | app/Volt/Meetings/Agenda.php:34-37 | an unset date becomes today, and a set one is kept |
| AgendaView.Agenda.UpdatedSelectedDate | app/Volt/Meetings/Agenda.php:42-45 | the date becomes the normalised value |
| AgendaView.Agenda.UpdatedSelectedCategory | app/Volt/Meetings/Agenda.php:50-53 | the category becomes the filtered value, and the date is kept |
| AgendaView.Agenda.PreviousWeek | app/Volt/Meetings/Agenda.php:58-62 | the state becomes the week before |
| AgendaView.Agenda.NextWeek | app/Volt/Meetings/Agenda.php:65-69 | the state becomes the week after |
| AgendaView.Agenda.GoToToday | app/Volt/Meetings/Agenda.php:74-77 | the date becomes today and the category is kept |
| AgendaView.Agenda.DisplayedDays | app/Volt/Meetings/Agenda.php:115-122 | 7 consecutive days starting on a Monday and containing the current date |
| Reasons.StoredDescription | resources/views/meetings/reasons.blade.php:47-53 | the description is trimmed, and a description that is blank after trimming is stored as null |
| Reasons.FormReset | resources/views/meetings/reasons.blade.php:120-124 | name and description become '', is_global false and the editing id null; nothing else changes |
| Reasons.Save | resources/views/meetings/reasons.blade.php:43-66 | an invalid form or a missing edited reason changes nothing; the save is rejected as invalid iff the form fails its rules (a required name of at most 255 characters; `max:1000` on a description that is not blank) |
| Reasons.BlankDescriptionStoredAsNull | resources/views/meetings/reasons.blade.php:43-53 | a blank description of any length passes validation and is stored as null, on a create as on an update |
| Reasons.SaveWritesReason | resources/views/meetings/reasons.blade.php:55-65 | a save updates the edited reason (which must exist) or creates one under the store's next id, then resets the form; not-found iff the edited id is set and missing |
| Reasons.CreateKeepsStoredReasons | resources/views/meetings/reasons.blade.php:55-65 | with a fresh next id, a create adds exactly one new id and keeps every reason stored before, unchanged |
| Reasons.SavePreservesFresh | resources/views/meetings/reasons.blade.php:43-66 | a save keeps the next id positive and above every stored id |
| Reasons.OtherActionsPreserveFresh | resources/views/meetings/reasons.blade.php:71-124 | edit, delete, the delete confirmation and cancellation and the form reset keep the next id fresh |
| Reasons.Edit | resources/views/meetings/reasons.blade.php:71-79 | a missing reason changes nothing; otherwise its fields are loaded, with a null description shown as '', and it becomes the edited reason |
| Reasons.DeletePending | resources/views/meetings/reasons.blade.php:84-87 | only the deleting id changes, and it becomes the given id |
| Reasons.Delete | resources/views/meetings/reasons.blade.php:92-107 | with no pending id nothing changes; otherwise the reason is removed, the pending id is cleared, and the form is reset iff an edit was in progress |
| Reasons.DeleteCancelled | resources/views/meetings/reasons.blade.php:112-115 | only the deleting id changes, and it is cleared |
| Reasons.StoredDescriptionRoundTrip | resources/views/meetings/reasons.blade.php:47-79 | a stored description, loaded into the form and saved again, is stored unchanged |
| Reasons.EditThenSaveKeepsReason | resources/views/meetings/reasons.blade.php:43-79 | opening a stored reason and saving it untouched leaves the stored reasons unchanged |
| Reasons.CreateThenDeleteRestores | resources/views/meetings/reasons.blade.php:43-107 | with a fresh next id, creating a reason and deleting it restores the stored reasons |
| Reasons.ReasonsComponent.constructor | resources/views/meetings/reasons.blade.php:8-16 | an empty form with nothing being edited or deleted, over a store whose next id is fresh |
| Reasons.ReasonsComponent.SaveReason | resources/views/meetings/reasons.blade.php:43-66 | outcome and new state equal the save specification, and the next id stays fresh |
| Reasons.ReasonsComponent.EditReason | resources/views/meetings/reasons.blade.php:71-79 | outcome and new state equal the edit specification, and the next id stays fresh |
| Reasons.ReasonsComponent.ConfirmDelete | resources/views/meetings/reasons.blade.php:84-87 | the new state is the pending-delete specification, and the next id stays fresh |
| Reasons.ReasonsComponent.DeleteReason | resources/views/meetings/reasons.blade.php:92-107 | outcome and new state equal the delete specification, and the next id stays fresh |
| Reasons.ReasonsComponent.CancelDelete | resources/views/meetings/reasons.blade.php:112-115 | the new state is the cancelled-delete specification, and the next id stays fresh |
| Reasons.ReasonsComponent.ResetForm | resources/views/meetings/reasons.blade.php:120-124 | the new state is the reset specification, and the next id stays fresh |
| Profile.Loaded | app/Volt/Profile/EditProfile.php:25-33 | the form shows the user's name, email, Gmail address and API key, with a null Gmail address or key shown as '' |
| Profile.Updated | app/Volt/Profile/EditProfile.php:60-88 | name, email and Gmail address come from the input; a blank key keeps the stored one and any other key is stored trimmed; a changed email clears the verification time and an unchanged one keeps it |
| Profile.StoredKeyIsTrimmed | app/Volt/Profile/EditProfile.php:72-78 | a key that the update writes is non-empty and already trimmed |
| Profile.SaveUneditedIsNoop | app/Volt/Profile/EditProfile.php:25-93 | saving the form as loaded leaves the user unchanged |
| Profile.SaveIsIdempotent | app/Volt/Profile/EditProfile.php:60-93 | saving the reloaded form after a save changes nothing more |
| Profile.EditProfile.constructor | app/Volt/Profile/EditProfile.php:25-33 | the form shows the user |
| Profile.EditProfile.Mount | app/Volt/Profile/EditProfile.php:25-33 | the fields are reloaded from the user, and the user is unchanged |
| Profile.EditProfile.UpdateProfileInformation | app/Volt/Profile/EditProfile.php:60-93 | an invalid input changes nothing; otherwise the user becomes the update of the form, and the fields are reloaded from it |

## Left out

- HTTP, the token endpoint, JSON decoding, logging contexts and the `urlencode` endpoint URLs are not modelled. Every call is an outcome parameter, every request is a recorded `Request`, every log line is a message and level.
- Configuration reads are parameters: `app.timezone`, `services.google.*` and `auth.corporate_domains`. `services.google.calendar_id` distinguishes an absent key, a null value and a string. The `(string)` casts of configured domains are not modelled; entries are strings or null.
- RFC 3339 formatting, Carbon parsing and time-zone conversion are not modelled. Times are integer timestamps (the meeting form's `Y-m-d\TH:i` text included), agenda dates are day numbers, and parsing is an abstract function parameter (partial in the overlap rule, where it may fail).
- `prefersGoogleCalendarSync` and `hasValidGoogleAccessToken` are not defined in the source, so they are abstract parameters.
- Queue infrastructure is not modelled: `onQueue`, retries, and races between tasks for one meeting. `SerializesModels` is modelled only as a reload of the meeting row by id that fails when the row is gone; the relations it reloads are not, so the restored meeting has its user not loaded. The failed job's record in `failed_jobs` is not modelled.
- `Meeting::make($payload)` copies the whole snapshot. The `$fillable` filter of `app/Models/Meeting.php` is not modelled; that file's columns disagree with the migration this model uses.
- The `Meeting.php` time accessors and the second meetings migration are not modelled.
- Overlap.Validate: a location matches only a text value, and responsible ids match only integer values. Database collation and type coercion in `where`/`whereIn` are not modelled.
- Overlap.Validate: an unparsable bound makes `Carbon::parse` throw; the model ends the rule with the verdict `Aborted` and does not model how the validator reports the exception.
- Overlap.Validate: the query excludes no meeting; the rule as written also compares against the meeting being edited.
- CorporateEmail.Validate: the comparison is strict string equality. PHP's loose `in_array` comparison of numeric strings is not modelled.
- Only the PHP `trim` characters are blanks (space, tab, newline, carriage return, NUL and vertical tab). `Str::trim` differs: it keeps NUL, strips form feed `"\f"` and other Unicode whitespace; those differences and lower-casing beyond ASCII are not modelled.
- Validation rules other than those written out are a `validated` flag: email format, `unique`, `exists`, `lowercase` and the date rules of the forms. The reasons form's length rules count characters. The `is_global` boolean rule is not modelled.
- `Auth::id()` is a parameter. The authorisation of the signed-in user is not modelled.
- MeetingForm.Suggestions: `LIKE` matching is case-sensitive substring containment. Case-insensitive collation and the `%`/`_` wildcards in the search term are not modelled. The query's `orderBy` is not modelled; candidates come in storage order.
- The users list, the selected-contacts list, the reason and visibility options of the meeting form, the category list of the agenda and the reasons listing are not modelled: they are read-only queries.
- The agenda's eager loading (`with`) and its order of meetings within a day are not modelled. Entries keep their input order.
- Livewire events are not modelled: `dispatch` of `reason-saved`, `profile-updated` and the like.
- `findOrFail` failing becomes a NotFound outcome with the state unchanged. The HTTP 404 is not modelled.
- Profile.SaveUneditedIsNoop requires a set Gmail address. The form property is a string, so a stored null is saved back as ''.
- GoogleCalendar.PersistSpec: only the meeting columns of the model are tracked; `created_at` and `updated_at` are not, so the refresh of `updated_at` by each `forceFill()->save()` is not recorded.
- GoogleCalendar.TokenRefreshStoresGrant: likewise, the user's `updated_at`, which the token save refreshes, is not modelled. Eloquent skips a column whose new value equals the loaded one; the model writes both token columns every time, which differs only when the stored row changed after the user was loaded.
- `resendVerificationNotification` is not modelled: it sends mail and redirects.
- All Blade markup and layout is not modelled, as are the auth controllers, routes, contact components and service provider.

## Findings

| source | as written | input that shows it | evidently intended | confidence | as-written member | corrected member |
|---|---|---|---|---|---|---|
| app/Jobs/SyncMeetingToGoogle.php:17 | the job uses `SerializesModels`, which reloads the meeting with `firstOrFail()` before `handle`; the observer's `deleted` task (app/Observers/MeetingObserver.php:55-58) runs after the row is gone, so the reload throws and lines 79-89, which rebuild the meeting from the snapshot, are never reached | a synced meeting (truthy `google_event_id`) is deleted: its delete task fails and no DELETE is sent | the delete task runs without the live meeting and removes the remote event through the snapshot | medium, not executed | Lifecycle.RunQueued (DeletedMeetingEventIsOrphaned) | Lifecycle.RunDispatched (DeletedMeetingStillDeletesEvent) |
| app/Rules/CorporateEmail.php:16-23 | `map()` turns each entry into a `Stringable` object, and `filter()` without a callback keeps every truthy element; an object is always truthy, so blank entries stay on the list as '' | `auth.corporate_domains = [null]` with "a@acme.com" fails; `['acme.com', null]` with "x@" passes | `filter()` drops blank entries, so they neither block real domains nor admit an empty domain | medium, not executed | CorporateEmail.ValidateAsWritten (BlankEntryBlocksEveryDomain, BlankEntryAdmitsEmptyDomain) | CorporateEmail.Validate (BlankEntriesAcceptEveryEmail, BlankEntryIgnored) |
