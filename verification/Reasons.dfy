/** The meeting-reasons screen: a create/edit form and a delete
    confirmation, over the stored reasons. A failed validation or a missing
    record (`findOrFail`) aborts the action and leaves everything as it was. */
module Reasons {
  import opened Common

  const MaxNameLength := 255
  const MaxDescriptionLength := 1000

  datatype Reason = Reason(name: string, description: Option<string>, isGlobal: bool)

  /** The component's fields plus the stored reasons; `nextId` is the id the
      store gives the next created reason. */
  datatype Screen = Screen(
    name: string,
    description: string,
    isGlobal: bool,
    editingReasonId: Option<int>,
    deletingReasonId: Option<int>,
    stored: map<int, Reason>,
    nextId: int
  )

  /** The store's next id is positive and above every stored id, as an
      auto-increment key is. */
  predicate Fresh(s: Screen) {
    0 < s.nextId && forall k :: k in s.stored ==> k < s.nextId
  }

  /** How an action ended. */
  datatype Outcome = Done | Invalid | NotFound

  /** PHP truthiness of a nullable id. */
  predicate IdSet(id: Option<int>) {
    id.Some? && id.value != 0
  }

  /** The form's validation rules: a required name of at most 255
      characters, a description of at most 1000. The validator runs no
      rule but an implicit one (`required`) on a string that is blank
      after `trim`, so `max:1000` never rejects a blank description. */
  predicate FormValid(s: Screen) {
    && !Blank(s.name) && |s.name| <= MaxNameLength
    && (Blank(s.description) || |s.description| <= MaxDescriptionLength)
  }

  /** The description as stored: trimmed, and null when nothing is left. */
  function StoredDescription(d: string): (r: Option<string>)
    ensures r.None? <==> Blank(d)
    ensures r.Some? ==> (
      && r.value == Trim(d) && r.value != []
      && !IsTrimChar(r.value[0]) && !IsTrimChar(r.value[|r.value| - 1]))
  {
    var t := Trim(d);
    if t == "" then None else Some(t)
  }

  /** `resetForm`. */
  function FormReset(s: Screen): (r: Screen)
    ensures r.name == "" && r.description == "" && !r.isGlobal && r.editingReasonId.None?
    ensures r.deletingReasonId == s.deletingReasonId && r.stored == s.stored && r.nextId == s.nextId
  {
    s.(name := "", description := "", isGlobal := false, editingReasonId := None)
  }

  /** `saveReason`: validate, then update the edited reason or create one
      under the next id, then reset the form. */
  function Save(s: Screen): (r: (Outcome, Screen))
    ensures r.0 != Done ==> r.1 == s
    ensures r.0 == Invalid <==> !FormValid(s)
  {
    if !FormValid(s) then (Invalid, s)
    else
      var reason := Reason(s.name, StoredDescription(s.description), s.isGlobal);
      if IdSet(s.editingReasonId) then
        var id := s.editingReasonId.value;
        if id !in s.stored then (NotFound, s)
        else (Done, FormReset(s.(stored := s.stored[id := reason])))
      else
        (Done, FormReset(s.(stored := s.stored[s.nextId := reason], nextId := s.nextId + 1)))
  }

  /** What a successful save writes: the form's reason under the edited id
      (which must exist) or under the store's next id, and an empty form. */
  lemma SaveWritesReason(s: Screen)
    ensures var r := Save(s);
      var reason := Reason(s.name, StoredDescription(s.description), s.isGlobal);
      && (r.0 == Done ==> r.1 == FormReset(r.1) && r.1.deletingReasonId == s.deletingReasonId)
      && (r.0 == Done && IdSet(s.editingReasonId) ==>
            && s.editingReasonId.value in s.stored
            && r.1.stored == s.stored[s.editingReasonId.value := reason] && r.1.nextId == s.nextId)
      && (r.0 == Done && !IdSet(s.editingReasonId) ==>
            r.1.stored == s.stored[s.nextId := reason] && r.1.nextId == s.nextId + 1)
      && (r.0 == NotFound <==> FormValid(s) && IdSet(s.editingReasonId) && s.editingReasonId.value !in s.stored)
  {
  }

  /** A blank description, of whatever length, passes validation and is
      stored as null, on a create as on an update. */
  lemma BlankDescriptionStoredAsNull(s: Screen)
    requires !Blank(s.name) && |s.name| <= MaxNameLength && Blank(s.description)
    ensures var r := Save(s);
      && r.0 != Invalid
      && (r.0 == Done && IdSet(s.editingReasonId) ==>
            r.1.stored[s.editingReasonId.value] == Reason(s.name, None, s.isGlobal))
      && (r.0 == Done && !IdSet(s.editingReasonId) ==>
            r.1.stored[s.nextId] == Reason(s.name, None, s.isGlobal))
  {
    assert StoredDescription(s.description) == None;
  }

  /** A create goes under an id no stored reason has, so every reason
      stored before is still stored, unchanged. */
  lemma CreateKeepsStoredReasons(s: Screen)
    requires Fresh(s) && !IdSet(s.editingReasonId)
    ensures var r := Save(s);
      r.0 == Done ==>
        && s.nextId !in s.stored
        && r.1.stored.Keys == s.stored.Keys + {s.nextId}
        && forall k :: k in s.stored ==> r.1.stored[k] == s.stored[k]
  {
  }

  /** `editReason`: load a stored reason into the form. */
  function Edit(s: Screen, reasonId: int): (r: (Outcome, Screen))
    ensures reasonId !in s.stored ==> r == (NotFound, s)
    ensures reasonId in s.stored ==> (
      && r.0 == Done
      && r.1.editingReasonId == Some(reasonId)
      && r.1.name == s.stored[reasonId].name
      && r.1.description == s.stored[reasonId].description.GetOr("")
      && r.1.isGlobal == s.stored[reasonId].isGlobal
      && r.1.deletingReasonId == s.deletingReasonId && r.1.stored == s.stored && r.1.nextId == s.nextId)
  {
    if reasonId !in s.stored then (NotFound, s)
    else
      var reason := s.stored[reasonId];
      (Done, s.(editingReasonId := Some(reasonId), name := reason.name,
                description := reason.description.GetOr(""), isGlobal := reason.isGlobal))
  }

  /** `confirmDelete`. */
  function DeletePending(s: Screen, reasonId: int): (r: Screen)
    ensures r.deletingReasonId == Some(reasonId)
    ensures r.(deletingReasonId := s.deletingReasonId) == s
  {
    s.(deletingReasonId := Some(reasonId))
  }

  /** `deleteReason`. */
  function Delete(s: Screen): (r: (Outcome, Screen))
    ensures !IdSet(s.deletingReasonId) ==> r == (Done, s)
    ensures IdSet(s.deletingReasonId) && s.deletingReasonId.value !in s.stored ==> r == (NotFound, s)
    ensures IdSet(s.deletingReasonId) && s.deletingReasonId.value in s.stored ==>
      && r.0 == Done
      && r.1.stored == s.stored - {s.deletingReasonId.value}
      && r.1.deletingReasonId.None?
      && (IdSet(s.editingReasonId) ==> r.1 == FormReset(r.1))
      && (!IdSet(s.editingReasonId) ==> r.1.name == s.name && r.1.description == s.description
                                          && r.1.isGlobal == s.isGlobal && r.1.editingReasonId == s.editingReasonId)
  {
    if !IdSet(s.deletingReasonId) then (Done, s)
    else
      var id := s.deletingReasonId.value;
      if id !in s.stored then (NotFound, s)
      else
        var removed := s.(stored := s.stored - {id}, deletingReasonId := None);
        (Done, if IdSet(s.editingReasonId) then FormReset(removed) else removed)
  }

  /** `cancelDelete`. */
  function DeleteCancelled(s: Screen): (r: Screen)
    ensures r.deletingReasonId.None?
    ensures r.(deletingReasonId := s.deletingReasonId) == s
  {
    s.(deletingReasonId := None)
  }

  // ---------------------------------------------------------------------
  // Properties of the screen

  /** A reason the form could have saved, in the form it is stored in. */
  predicate Saveable(reason: Reason) {
    && !Blank(reason.name) && |reason.name| <= MaxNameLength
    && (reason.description.None? ||
        (var d := reason.description.value;
         d != [] && |d| <= MaxDescriptionLength && !IsTrimChar(d[0]) && !IsTrimChar(d[|d| - 1])))
  }

  /** A stored description comes back unchanged through the form. */
  lemma {:induction false} StoredDescriptionRoundTrip(d: Option<string>)
    requires d.None? || (d.value != [] && !IsTrimChar(d.value[0]) && !IsTrimChar(d.value[|d.value| - 1]))
    ensures StoredDescription(d.GetOr("")) == d
  {
    if d.Some? {
      TrimStartOfTrimmed(d.value);
      TrimEndOfTrimmed(d.value);
    } else {
      assert TrimStart("") == "" && TrimEnd("") == "";
    }
  }

  /** Opening a stored reason for editing and saving it untouched writes
      back exactly the reason that was stored. */
  lemma {:induction false} EditThenSaveKeepsReason(s: Screen, reasonId: int)
    requires reasonId != 0 && reasonId in s.stored && Saveable(s.stored[reasonId])
    ensures var edited := Edit(s, reasonId).1;
      Save(edited).0 == Done && Save(edited).1.stored == s.stored
  {
    var reason := s.stored[reasonId];
    var edited := Edit(s, reasonId).1;
    StoredDescriptionRoundTrip(reason.description);
    assert edited == s.(editingReasonId := Some(reasonId), name := reason.name,
                        description := reason.description.GetOr(""), isGlobal := reason.isGlobal);
    assert Reason(edited.name, StoredDescription(edited.description), edited.isGlobal) == reason;
    assert FormValid(edited);
    assert s.stored[reasonId := reason] == s.stored;
  }

  /** Saving keeps the store's next id fresh: a create raises it past the
      id it used. */
  lemma SavePreservesFresh(s: Screen)
    requires Fresh(s)
    ensures Fresh(Save(s).1)
  {
    if FormValid(s) {
      var reason := Reason(s.name, StoredDescription(s.description), s.isGlobal);
      if !IdSet(s.editingReasonId) {
        var created := s.(stored := s.stored[s.nextId := reason], nextId := s.nextId + 1);
        assert Save(s).1 == FormReset(created);
        assert Fresh(created);
      } else if s.editingReasonId.value in s.stored {
        var updated := s.(stored := s.stored[s.editingReasonId.value := reason]);
        assert Save(s).1 == FormReset(updated);
        assert updated.stored.Keys == s.stored.Keys;
      }
    }
  }

  /** Editing, deleting and the form-only actions keep the store's next id
      fresh: none of them adds a stored id or lowers the next one. */
  lemma OtherActionsPreserveFresh(s: Screen, reasonId: int)
    requires Fresh(s)
    ensures Fresh(Edit(s, reasonId).1) && Fresh(Delete(s).1)
    ensures Fresh(DeletePending(s, reasonId)) && Fresh(DeleteCancelled(s)) && Fresh(FormReset(s))
  {
    assert Delete(s).1.stored.Keys <= s.stored.Keys && Delete(s).1.nextId == s.nextId;
  }

  /** Saving a new reason and then deleting it restores the stored reasons. */
  lemma CreateThenDeleteRestores(s: Screen)
    requires Fresh(s) && FormValid(s) && !IdSet(s.editingReasonId)
    ensures var saved := Save(s).1;
      Delete(DeletePending(saved, s.nextId)).1.stored == s.stored
  {
    var r := Save(s);
    SaveWritesReason(s);
    assert r.0 == Done;
    var saved := r.1;
    RemoveFreshKey(s.stored, s.nextId, Reason(s.name, StoredDescription(s.description), s.isGlobal));
    var pending := DeletePending(saved, s.nextId);
    assert pending.stored == saved.stored && pending.deletingReasonId == Some(s.nextId);
    assert IdSet(pending.deletingReasonId) && s.nextId in pending.stored;
  }

  /** Adding a key a map lacks and removing it again gives the map back. */
  lemma RemoveFreshKey(m: map<int, Reason>, k: int, v: Reason)
    requires k !in m
    ensures m[k := v] - {k} == m
  {
  }

  // ---------------------------------------------------------------------
  // The component

  class ReasonsComponent {
    var name: string
    var description: string
    var isGlobal: bool
    var editingReasonId: Option<int>
    var deletingReasonId: Option<int>
    var stored: map<int, Reason>
    var nextId: int

    function AsScreen(): Screen
      reads this
    {
      Screen(name, description, isGlobal, editingReasonId, deletingReasonId, stored, nextId)
    }

    predicate Valid()
      reads this
    {
      Fresh(AsScreen())
    }

    constructor (stored: map<int, Reason>, nextId: int)
      requires 0 < nextId && forall k :: k in stored ==> k < nextId
      ensures Valid()
      ensures AsScreen() == Screen("", "", false, None, None, stored, nextId)
    {
      name, description, isGlobal := "", "", false;
      editingReasonId, deletingReasonId := None, None;
      this.stored, this.nextId := stored, nextId;
    }

    method SaveReason() returns (outcome: Outcome)
      modifies this
      requires Valid()
      ensures Valid()
      ensures (outcome, AsScreen()) == Save(old(AsScreen()))
    {
      if !FormValid(AsScreen()) {
        return Invalid;
      }
      var reason := Reason(name, StoredDescription(description), isGlobal);
      if IdSet(editingReasonId) {
        if editingReasonId.value !in stored {
          return NotFound;
        }
        stored := stored[editingReasonId.value := reason];
      } else {
        stored := stored[nextId := reason];
        nextId := nextId + 1;
      }
      ResetForm();
      outcome := Done;
    }

    method EditReason(reasonId: int) returns (outcome: Outcome)
      modifies this
      requires Valid()
      ensures Valid()
      ensures (outcome, AsScreen()) == Edit(old(AsScreen()), reasonId)
    {
      if reasonId !in stored {
        return NotFound;
      }
      var reason := stored[reasonId];
      editingReasonId := Some(reasonId);
      name := reason.name;
      description := reason.description.GetOr("");
      isGlobal := reason.isGlobal;
      outcome := Done;
    }

    method ConfirmDelete(reasonId: int)
      modifies this
      requires Valid()
      ensures Valid()
      ensures AsScreen() == DeletePending(old(AsScreen()), reasonId)
    {
      deletingReasonId := Some(reasonId);
    }

    method DeleteReason() returns (outcome: Outcome)
      modifies this
      requires Valid()
      ensures Valid()
      ensures (outcome, AsScreen()) == Delete(old(AsScreen()))
    {
      if !IdSet(deletingReasonId) {
        return Done;
      }
      if deletingReasonId.value !in stored {
        return NotFound;
      }
      stored := stored - {deletingReasonId.value};
      deletingReasonId := None;
      if IdSet(editingReasonId) {
        ResetForm();
      }
      outcome := Done;
    }

    method CancelDelete()
      modifies this
      requires Valid()
      ensures Valid()
      ensures AsScreen() == DeleteCancelled(old(AsScreen()))
    {
      deletingReasonId := None;
    }

    method ResetForm()
      modifies this
      requires Valid()
      ensures Valid()
      ensures AsScreen() == FormReset(old(AsScreen()))
    {
      name, description, isGlobal, editingReasonId := "", "", false, None;
    }
  }
}
