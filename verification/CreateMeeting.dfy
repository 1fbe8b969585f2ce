/** The meeting-creation form: contact selection, the autocomplete filter,
    the defaults the form starts from, and the record and pivot lists that
    `createMeeting` writes. Times are local wall-clock timestamps in seconds. */
module MeetingForm {
  import opened Common

  const HourSeconds := 3600
  const SuggestionLimit := 5
  const DefaultVisibility := "private"
  const CreatedMessage := "Meeting created successfully."

  /** An external contact, as the suggestion query sees it. */
  datatype Contact = Contact(id: int, name: string, email: Option<string>, organization: Option<string>)

  /** What `createMeeting` stores: the meeting row and the two pivot lists. */
  datatype NewMeeting = NewMeeting(
    title: string,
    agenda: Option<string>,
    reason: string,
    location: Option<string>,
    startsAt: int,
    endsAt: int,
    visibility: string,
    createdBy: int,
    responsibles: seq<int>,
    externalContacts: seq<int>
  )

  // ---------------------------------------------------------------------
  // Specification functions

  /** `now()->addHour()->setMinute(0)->setSecond(0)`: the top of the next hour. */
  function TopOfNextHour(now: int): (r: int)
    ensures r % HourSeconds == 0
    ensures now < r <= now + HourSeconds
  {
    var t := now + HourSeconds;
    t - t % HourSeconds
  }

  /** The selection after picking an existing contact: appended once. */
  function WithContact(ids: seq<int>, id: int): (r: seq<int>)
    ensures id in r
    ensures forall x :: x in r <==> x in ids || x == id
    ensures |ids| <= |r| && r[..|ids|] == ids
    ensures Distinct(ids) ==> Distinct(r)
  {
    if id in ids then ids else ids + [id]
  }

  /** Picking the same contact twice is picking it once. */
  lemma WithContactIdempotent(ids: seq<int>, id: int)
    ensures WithContact(WithContact(ids, id), id) == WithContact(ids, id)
  {
  }

  /** Removing an id that is not there changes nothing. */
  lemma {:induction false} RemoveAbsent(ids: seq<int>, id: int)
    requires id !in ids
    ensures RemoveAll(ids, id) == ids
  {
    if ids != [] {
      RemoveAbsent(ids[1..], id);
    }
  }

  /** Removing drops exactly the trailing copy that a selection appended. */
  lemma {:induction false} RemoveAppended(ids: seq<int>, id: int)
    ensures RemoveAll(ids + [id], id) == RemoveAll(ids, id)
  {
    if ids == [] {
      assert RemoveAll([id], id) == RemoveAll([], id);
    } else {
      assert (ids + [id])[1..] == ids[1..] + [id];
      RemoveAppended(ids[1..], id);
    }
  }

  /** Selecting a new contact and then removing it restores the selection. */
  lemma SelectThenRemoveRestores(ids: seq<int>, id: int)
    requires id !in ids
    ensures RemoveAll(WithContact(ids, id), id) == ids
  {
    RemoveAppended(ids, id);
    RemoveAbsent(ids, id);
  }

  /** The responsibles passed to `sync`: the submitted ids without
      duplicates, then the creator if absent. */
  function Responsibles(ids: seq<int>, creator: int): (r: seq<int>)
    ensures Distinct(r)
    ensures creator in r
    ensures forall x :: x in r <==> x in ids || x == creator
    ensures creator in ids ==> r == Unique(ids)
  {
    var unique := Unique(ids);
    if creator in unique then unique else unique + [creator]
  }

  /** `blank($v) ? null : $v`. */
  function NullIfBlank(s: Option<string>): (r: Option<string>)
    ensures r.None? <==> BlankOpt(s)
    ensures r.Some? ==> r == s && !Blank(r.value)
  {
    if BlankOpt(s) then None else s
  }

  /** One contact matches the search term on name, email or organisation. */
  predicate MatchesTerm(c: Contact, term: string) {
    Contains(c.name, term)
    || (c.email.Some? && Contains(c.email.value, term))
    || (c.organization.Some? && Contains(c.organization.value, term))
  }

  predicate Suggestible(c: Contact, search: string, selected: seq<int>) {
    (Blank(search) || MatchesTerm(c, search)) && c.id !in selected
  }

  /** The suggestion query before its `limit`, in storage order. */
  function Candidates(contacts: seq<Contact>, search: string, selected: seq<int>): (r: seq<Contact>)
    ensures forall c :: c in r <==> c in contacts && Suggestible(c, search, selected)
    ensures |r| <= |contacts|
  {
    if contacts == [] then []
    else
      var rest := Candidates(contacts[1..], search, selected);
      assert forall c :: c in contacts <==> c == contacts[0] || c in contacts[1..];
      if Suggestible(contacts[0], search, selected) then [contacts[0]] + rest else rest
  }

  /** `getContactSuggestionsProperty`: the first five candidates. */
  function Suggestions(contacts: seq<Contact>, search: string, selected: seq<int>): (r: seq<Contact>)
    ensures |r| <= SuggestionLimit
    ensures forall c :: c in r ==> c in contacts && c.id !in selected
    ensures forall c :: c in r && !Blank(search) ==> MatchesTerm(c, search)
    ensures |Candidates(contacts, search, selected)| <= SuggestionLimit ==>
      forall c :: c in contacts && Suggestible(c, search, selected) ==> c in r
    ensures var n := |Candidates(contacts, search, selected)|;
      |r| == if n < SuggestionLimit then n else SuggestionLimit
    ensures r == Candidates(contacts, search, selected)[..|r|]
  {
    var all := Candidates(contacts, search, selected);
    var r := Take(all, SuggestionLimit);
    assert forall c :: c in r ==> c in all;
    r
  }

  /** The component's public properties. */
  datatype FormState = FormState(
    title: string,
    agenda: string,
    reason: string,
    location: Option<string>,
    startsAt: int,
    endsAt: int,
    visibility: string,
    responsibleIds: seq<int>,
    selectedContactIds: seq<int>,
    contactSearch: string,
    successMessage: Option<string>
  )

  /** `initializeDefaults`: an empty form whose meeting runs for one hour from
      the top of the next hour, with the signed-in user (if any) as the only
      responsible. The success message is not touched. */
  function Defaults(now: int, authId: Option<int>, message: Option<string>): (r: FormState)
    ensures r.startsAt % HourSeconds == 0 && now < r.startsAt <= now + HourSeconds
    ensures r.endsAt == r.startsAt + HourSeconds
    ensures r.responsibleIds == (if authId.Some? then [authId.value] else [])
    ensures r.selectedContactIds == [] && r.contactSearch == "" && r.visibility == DefaultVisibility
    ensures r.title == "" && r.agenda == "" && r.reason == "" && r.location.None?
    ensures r.successMessage == message
  {
    var start := TopOfNextHour(now);
    FormState("", "", "", None, start, start + HourSeconds, DefaultVisibility,
              if authId.Some? then [authId.value] else [], [], "", message)
  }

  /** `selectContact`: `existing` is the set of stored contact ids. An
      unknown id changes nothing at all; a known one is added once and the
      search box is cleared. */
  function Select(s: FormState, contactId: int, existing: set<int>): (r: FormState)
    ensures contactId !in existing ==> r == s
    ensures contactId in existing ==> contactId in r.selectedContactIds && r.contactSearch == ""
    ensures contactId in existing ==> r.selectedContactIds == WithContact(s.selectedContactIds, contactId)
    ensures Distinct(s.selectedContactIds) ==> Distinct(r.selectedContactIds)
    ensures r.(selectedContactIds := s.selectedContactIds, contactSearch := s.contactSearch) == s
  {
    if contactId !in existing then s
    else s.(selectedContactIds := WithContact(s.selectedContactIds, contactId), contactSearch := "")
  }

  /** `removeContact`: every copy of the id leaves, every other id stays
      with its multiplicity, and (by `RemoveAllAppend`) in its order. */
  function Remove(s: FormState, contactId: int): (r: FormState)
    ensures contactId !in r.selectedContactIds
    ensures forall x :: x in r.selectedContactIds <==> x in s.selectedContactIds && x != contactId
    ensures multiset(r.selectedContactIds) == multiset(s.selectedContactIds)[contactId := 0]
    ensures contactId !in s.selectedContactIds ==> r == s
    ensures r.(selectedContactIds := s.selectedContactIds) == s
  {
    assert contactId !in s.selectedContactIds ==> RemoveAll(s.selectedContactIds, contactId) == s.selectedContactIds by {
      if contactId !in s.selectedContactIds {
        RemoveAbsent(s.selectedContactIds, contactId);
      }
    }
    s.(selectedContactIds := RemoveAll(s.selectedContactIds, contactId))
  }

  /** Removing splits over the selection: the ids before and after any cut
      keep their relative order. */
  lemma RemoveKeepsOrder(s: FormState, contactId: int, k: nat)
    requires k <= |s.selectedContactIds|
    ensures var ids := s.selectedContactIds;
      Remove(s, contactId).selectedContactIds == RemoveAll(ids[..k], contactId) + RemoveAll(ids[k..], contactId)
  {
    var ids := s.selectedContactIds;
    assert ids == ids[..k] + ids[k..];
    RemoveAllAppend(ids[..k], ids[k..], contactId);
  }

  /** Selecting a contact not yet selected and removing it again restores
      the selection (the search box stays cleared). */
  lemma SelectThenRemoveRestoresSelection(s: FormState, contactId: int, existing: set<int>)
    requires contactId in existing && contactId !in s.selectedContactIds
    ensures Remove(Select(s, contactId, existing), contactId) == s.(contactSearch := "")
  {
    SelectThenRemoveRestores(s.selectedContactIds, contactId);
  }

  /** The record `createMeeting` stores for a validated form. */
  function Record(s: FormState, creator: int): (r: NewMeeting)
    ensures r.agenda.None? <==> Blank(s.agenda)
    ensures !Blank(s.agenda) ==> r.agenda == Some(s.agenda)
    ensures r.location.None? <==> BlankOpt(s.location)
    ensures !BlankOpt(s.location) ==> r.location == s.location
    ensures r.reason == s.reason && r.visibility == s.visibility
    ensures Distinct(r.responsibles) && creator in r.responsibles
    ensures forall x :: x in r.responsibles <==> x in s.responsibleIds || x == creator
    ensures Distinct(r.externalContacts)
    ensures forall x :: x in r.externalContacts <==> x in s.selectedContactIds
    ensures r.createdBy == creator && r.title == s.title
    ensures r.startsAt == s.startsAt && r.endsAt == s.endsAt
  {
    NewMeeting(s.title, NullIfBlank(Some(s.agenda)), s.reason, NullIfBlank(s.location),
               s.startsAt, s.endsAt, s.visibility, creator,
               Responsibles(s.responsibleIds, creator), Unique(s.selectedContactIds))
  }

  // ---------------------------------------------------------------------
  // The component

  class CreateMeetingForm {
    var title: string
    var agenda: string
    var reason: string
    var location: Option<string>
    var startsAt: int
    var endsAt: int
    var visibility: string
    var responsibleIds: seq<int>
    var selectedContactIds: seq<int>
    var contactSearch: string
    var successMessage: Option<string>

    function AsState(): FormState
      reads this
    {
      FormState(title, agenda, reason, location, startsAt, endsAt, visibility,
                responsibleIds, selectedContactIds, contactSearch, successMessage)
    }

    /** `mount`: the form starts from its defaults. `authId` is the
        signed-in user's id, if any. */
    constructor (now: int, authId: Option<int>)
      ensures AsState() == Defaults(now, authId, None)
    {
      successMessage := None;
      new;
      InitializeDefaults(now, authId);
    }

    method InitializeDefaults(now: int, authId: Option<int>)
      modifies this
      ensures AsState() == Defaults(now, authId, old(successMessage))
    {
      var start := TopOfNextHour(now);
      startsAt := start;
      endsAt := start + HourSeconds;
      visibility := DefaultVisibility;
      responsibleIds := if authId.Some? then [authId.value] else [];
      selectedContactIds := [];
      contactSearch := "";
      title := "";
      agenda := "";
      reason := "";
      location := None;
    }

    method SelectContact(contactId: int, existing: set<int>)
      modifies this
      ensures AsState() == Select(old(AsState()), contactId, existing)
    {
      if contactId !in existing {
        return;
      }
      if contactId !in selectedContactIds {
        selectedContactIds := selectedContactIds + [contactId];
      }
      contactSearch := "";
    }

    method RemoveContact(contactId: int)
      modifies this
      ensures AsState() == Remove(old(AsState()), contactId)
    {
      selectedContactIds := RemoveAll(selectedContactIds, contactId);
    }

    /** `createMeeting`. `validated` is the outcome of the form's validation
        rules (on failure nothing is stored and the form is left as it is);
        `creator` is the signed-in user's id. */
    method CreateMeeting(validated: bool, creator: int, now: int) returns (created: Option<NewMeeting>)
      modifies this
      ensures !validated ==> created.None? && AsState() == old(AsState())
      ensures validated ==> created == Some(Record(old(AsState()), creator))
      ensures validated ==> AsState() == Defaults(now, Some(creator), Some(CreatedMessage))
    {
      if !validated {
        return None;
      }
      created := Some(Record(AsState(), creator));
      successMessage := Some(CreatedMessage);
      InitializeDefaults(now, Some(creator));
    }
  }
}
