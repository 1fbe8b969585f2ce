/** The meeting-overlap validation rule: a proposed meeting fails when its end
    is not after its start, or when an existing meeting shares its location
    or one of its responsibles and overlaps it in time (inclusive bounds). */
module Overlap {
  import opened Common

  /** A value of the submitted form data. */
  datatype Value = Null | Text(text: string) | Number(number: int) | List(items: seq<Value>)

  /** The form data the rule receives through `setData`. */
  type Data = map<string, Value>

  /** `data_get($data, $key, $default)` for a key without dots: a present key
      gives its value, even a null one. */
  function DataGet(data: Data, key: string, default: Value): (r: Value)
    ensures key in data ==> r == data[key]
    ensures key !in data ==> r == default
  {
    if key in data then data[key] else default
  }

  /** PHP truthiness. */
  predicate Truthy(v: Value) {
    match v
    case Null => false
    case Text(s) => !FalsyString(s)
    case Number(n) => n != 0
    case List(items) => items != []
  }

  /** Laravel `blank()`. */
  predicate BlankValue(v: Value) {
    match v
    case Null => true
    case Text(s) => Blank(s)
    case Number(_) => false
    case List(items) => items == []
  }

  /** `Arr::wrap`. */
  function Wrap(v: Value): (r: seq<Value>)
    ensures v.Null? ==> r == []
    ensures v.List? ==> r == v.items
    ensures !v.Null? && !v.List? ==> r == [v]
  {
    match v
    case Null => []
    case List(items) => items
    case _ => [v]
  }

  /** The inputs, camelCase key first, snake_case key as fallback. */
  function StartsAtInput(data: Data): Value {
    DataGet(data, "startsAt", DataGet(data, "starts_at", Null))
  }

  function EndsAtInput(data: Data): Value {
    DataGet(data, "endsAt", DataGet(data, "ends_at", Null))
  }

  function ResponsibleIdsInput(data: Data): seq<Value> {
    Wrap(DataGet(data, "responsibleIds", DataGet(data, "responsible_ids", List([]))))
  }

  function LocationInput(data: Data): Value {
    DataGet(data, "location", Null)
  }

  /** An existing meeting as the query sees it: its location column, its
      bounds (as timestamps) and the ids of its responsible users. */
  datatype Booked = Booked(location: Option<string>, startsAt: int, endsAt: int, responsibles: set<int>)

  /** The location filter, applied only when a location is filled in. */
  predicate SameLocation(location: Value, b: Booked) {
    !BlankValue(location) && location.Text? && b.location == Some(location.text)
  }

  /** The responsibles filter, applied only when the id list is not blank. */
  predicate SharesResponsible(ids: seq<Value>, b: Booked) {
    ids != [] && exists i :: 0 <= i < |ids| && ids[i].Number? && ids[i].number in b.responsibles
  }

  /** The first `where` group: same location OR a shared responsible. */
  predicate ResourceMatch(location: Value, ids: seq<Value>, b: Booked) {
    SameLocation(location, b) || SharesResponsible(ids, b)
  }

  /** The second `where` group: either bound of the existing meeting lies in
      [start, end], or the existing meeting encloses [start, end]. */
  predicate TimeConflict(start: int, end: int, b: Booked) {
    (start <= b.startsAt <= end)
    || (start <= b.endsAt <= end)
    || (b.startsAt <= start && b.endsAt >= end)
  }

  predicate Conflicts(location: Value, ids: seq<Value>, start: int, end: int, b: Booked) {
    ResourceMatch(location, ids, b) && TimeConflict(start, end, b)
  }

  /** The query's `exists()`: some existing meeting passes both groups. */
  function AnyConflict(booked: seq<Booked>, location: Value, ids: seq<Value>, start: int, end: int): (r: bool)
    ensures r <==> exists i :: 0 <= i < |booked| && Conflicts(location, ids, start, end, booked[i])
  {
    if booked == [] then false
    else if Conflicts(location, ids, start, end, booked[0]) then true
    else
      var rest := AnyConflict(booked[1..], location, ids, start, end);
      assert forall i :: 1 <= i < |booked| ==> booked[i] == booked[1..][i - 1];
      rest
  }

  const EndNotAfterStartMessage := "The meeting end time must be after the start time."
  const OverlapMessage := "There is already a meeting scheduled for the selected time with the same location or responsible."

  /** `Passes` and `Fails` are the rule's outcomes; `Aborted` is the
      exception `Carbon::parse` throws on a bound it cannot read, which ends
      the validation without a verdict. */
  datatype Verdict = Passes | Fails(message: string) | Aborted

  /** The rule. `parse` stands for `Carbon::parse` of a truthy input, `None`
      where it throws; the start is parsed before the end. */
  function Validate(data: Data, parse: Value -> Option<int>, booked: seq<Booked>): (r: Verdict)
    ensures r != Passes ==> Truthy(StartsAtInput(data)) && Truthy(EndsAtInput(data))
    ensures r == Aborted <==>
      Truthy(StartsAtInput(data)) && Truthy(EndsAtInput(data))
      && (parse(StartsAtInput(data)).None? || parse(EndsAtInput(data)).None?)
    ensures r == Fails(EndNotAfterStartMessage) <==>
      Truthy(StartsAtInput(data)) && Truthy(EndsAtInput(data))
      && parse(StartsAtInput(data)).Some? && parse(EndsAtInput(data)).Some?
      && parse(EndsAtInput(data)).value <= parse(StartsAtInput(data)).value
    ensures r == Fails(OverlapMessage) ==>
      parse(StartsAtInput(data)).Some? && parse(EndsAtInput(data)).Some?
      && (exists i :: 0 <= i < |booked|
            && Conflicts(LocationInput(data), ResponsibleIdsInput(data),
                         parse(StartsAtInput(data)).value, parse(EndsAtInput(data)).value, booked[i]))
    ensures r.Passes? || r.Aborted? || r == Fails(EndNotAfterStartMessage) || r == Fails(OverlapMessage)
  {
    var startsAt := StartsAtInput(data);
    var endsAt := EndsAtInput(data);
    if !Truthy(startsAt) || !Truthy(endsAt) then Passes
    else if parse(startsAt).None? || parse(endsAt).None? then Aborted
    else
      var start := parse(startsAt).value;
      var end := parse(endsAt).value;
      if end <= start then Fails(EndNotAfterStartMessage)
      else
        var ids := ResponsibleIdsInput(data);
        var location := LocationInput(data);
        if BlankValue(location) && BlankValue(List(ids)) then Passes
        else if AnyConflict(booked, location, ids, start, end) then Fails(OverlapMessage)
        else Passes
  }

  // ---------------------------------------------------------------------
  // Properties of the rule

  /** A missing (falsy) bound lets the rule pass. */
  lemma MissingBoundPasses(data: Data, parse: Value -> Option<int>, booked: seq<Booked>)
    requires !Truthy(StartsAtInput(data)) || !Truthy(EndsAtInput(data))
    ensures Validate(data, parse, booked) == Passes
  {
  }

  /** With neither a location nor responsibles there is nothing to clash on:
      only the parse and the ordering check can stop the meeting. */
  lemma NoResourceNeverOverlaps(data: Data, parse: Value -> Option<int>, booked: seq<Booked>)
    requires BlankValue(LocationInput(data)) && ResponsibleIdsInput(data) == []
    ensures Validate(data, parse, booked) != Fails(OverlapMessage)
  {
  }

  /** With well-ordered bounds, the rule fails exactly when some existing
      meeting clashes on a resource and on time. */
  lemma FailsIffSomeMeetingConflicts(data: Data, parse: Value -> Option<int>, booked: seq<Booked>)
    requires Truthy(StartsAtInput(data)) && Truthy(EndsAtInput(data))
    requires parse(StartsAtInput(data)).Some? && parse(EndsAtInput(data)).Some?
    requires parse(StartsAtInput(data)).value < parse(EndsAtInput(data)).value
    ensures Validate(data, parse, booked).Fails? <==>
      exists i :: 0 <= i < |booked|
        && Conflicts(LocationInput(data), ResponsibleIdsInput(data),
                     parse(StartsAtInput(data)).value, parse(EndsAtInput(data)).value, booked[i])
  {
    var location := LocationInput(data);
    var ids := ResponsibleIdsInput(data);
    if BlankValue(location) && ids == [] {
      forall i | 0 <= i < |booked|
        ensures !ResourceMatch(location, ids, booked[i])
      {
      }
    }
  }

  /** For a well-formed existing meeting, the time condition is exactly
      closed-interval intersection. */
  lemma TimeConflictIsClosedIntersection(start: int, end: int, b: Booked)
    requires start <= end && b.startsAt <= b.endsAt
    ensures TimeConflict(start, end, b) <==> b.startsAt <= end && start <= b.endsAt
  {
  }

  /** So meetings that only touch at an endpoint conflict. */
  lemma BackToBackConflicts(start: int, end: int, b: Booked)
    requires start < end && b.startsAt <= b.endsAt
    requires b.endsAt == start || b.startsAt == end
    ensures TimeConflict(start, end, b)
  {
  }

  /** The camelCase key wins over the snake_case one. */
  lemma CamelCaseKeyFirst(data: Data)
    requires "startsAt" in data && "endsAt" in data
    ensures StartsAtInput(data) == data["startsAt"] && EndsAtInput(data) == data["endsAt"]
  {
  }
}
