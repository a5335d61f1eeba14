/** The event model: adding, updating and deleting an EVENT row, looking
    events up, and the reports that join events with their organizer and
    their feedback. Each operation opens one connection; `reachable` says
    whether it could. */
module Events {
  import opened JsValues
  import opened Formats
  import opened Rows
  import opened Store

  // ---- how a row leaves the model ----

  /** What a stored DATE becomes in a reply. */
  datatype DateShown =
    | Iso(day: string)  // the stored day, as an ISO instant
    | Epoch             // `new Date(null)`: 1970-01-01T00:00:00.000Z
    | NullDate          // JSON null

  /** `new Date(EventDate).toISOString()`: a NULL date becomes the epoch. */
  function IsoOrEpoch(d: Option<string>): (r: DateShown)
    ensures r.Iso? <==> d.Some?
    ensures r.Iso? ==> r.day == d.value
    ensures d.None? ==> r == Epoch
  {
    if d.Some? then Iso(d.value) else Epoch
  }

  /** `EventDate ? new Date(EventDate).toISOString() : null`. */
  function IsoOrNull(d: Option<string>): (r: DateShown)
    ensures r.Iso? <==> d.Some?
    ensures r.Iso? ==> r.day == d.value
    ensures d.None? ==> r == NullDate
  {
    if d.Some? then Iso(d.value) else NullDate
  }

  /** One event as the lookups return it. */
  datatype EventView = EventView(id: int, organizerId: int, date: DateShown, expense: int, time: string, name: string)

  function ViewOf(e: EventRow): EventView {
    EventView(e.id, e.organizerId, IsoOrEpoch(e.date), e.expense, e.time, e.name)
  }

  // ---- addEvent ----

  /** The body of an add request, one JavaScript value per property. */
  datatype EventInput = EventInput(
    eventId: JsValue, organizerId: JsValue, date: JsValue,
    expense: JsValue, time: JsValue, name: JsValue)

  datatype AddEventError =
    | MissingDetails              // a required property is falsy
    | InvalidIds                  // EventID or OrganizerID is not an integer
    | InvalidExpense              // Expense is not a number
    | InvalidDateFormat           // EventDate is not YYYY-MM-DD
    | InvalidTimeFormat           // EventTime is not HH:MM
    | NameTooLong                 // EventName is a string of more than 50 UTF-16 code units
    | OrganizerNotFound           // no ORGANIZER row has the OrganizerID
    | DuplicateEventId            // an EVENT row already has the EventID
    | AddFailed(error: StoreError) // the store raised; the handler caught it

  datatype AddEventOutcome = EventAdded | EventRejected(error: AddEventError)

  /** The checks `addEvent` makes on the body before it queries the store,
      in the order it makes them. */
  function ValidationError(x: EventInput): Option<AddEventError> {
    if !(Truthy(x.eventId) && Truthy(x.organizerId) && Truthy(x.date) && Truthy(x.time) && Truthy(x.name)) then
      Some(MissingDetails)
    else if !IsInteger(x.eventId) || !IsInteger(x.organizerId) then Some(InvalidIds)
    else if !IsNumber(x.expense) then Some(InvalidExpense)
    else if !DateTest(x.date) then Some(InvalidDateFormat)
    else if !TimeTest(x.time) then Some(InvalidTimeFormat)
    else if x.name.Str? && Utf16Length(x.name.s) > 50 then Some(NameTooLong)
    else None
  }

  /** The whole decision of `addEvent`: the connection is opened first, then
      the body is checked, then the two COUNT queries run, then the INSERT,
      whose TO_TIMESTAMP reads the date before the name is bound. */
  function AddEventResult(reachable: bool, x: EventInput, organizerIds: set<int>, eventIds: set<int>): AddEventOutcome {
    if !reachable then EventRejected(AddFailed(Unreachable))
    else if ValidationError(x).Some? then EventRejected(ValidationError(x).value)
    else if IntegerOf(x.organizerId) !in organizerIds then EventRejected(OrganizerNotFound)
    else if IntegerOf(x.eventId) in eventIds then EventRejected(DuplicateEventId)
    else if !IsCalendarDate(x.date.s) then EventRejected(AddFailed(InvalidDateValue))
    else if !x.name.Str? then EventRejected(AddFailed(InconsistentDatatypes))
    else EventAdded
  }

  /** The row the INSERT writes: Expense is rounded into its INTEGER column. */
  function NewEventRow(x: EventInput): EventRow
    requires ValidationError(x).None? && x.name.Str?
  {
    EventRow(IntegerOf(x.eventId), IntegerOf(x.organizerId), Some(x.date.s), OracleRound(x.expense.n), x.time.s, x.name.s)
  }

  method AddEvent(db: Database, reachable: bool, x: EventInput) returns (outcome: AddEventOutcome)
    requires db.Valid()
    modifies db`events
    ensures db.Valid()
    ensures outcome == AddEventResult(reachable, x, Keys(db.organizers, OrganizerId), Keys(old(db.events), EventId))
    ensures db.events == if outcome.EventAdded? then old(db.events) + [NewEventRow(x)] else old(db.events)
  {
    if !reachable {
      return EventRejected(AddFailed(Unreachable));
    }
    var err := ValidationError(x);
    if err.Some? {
      return EventRejected(err.value);
    }
    var organizerId := IntegerOf(x.organizerId);
    CountByKeyAtMostOne(db.organizers, OrganizerId, organizerId, OrganizerIs(organizerId));
    if Count(db.organizers, OrganizerIs(organizerId)) == 0 {
      return EventRejected(OrganizerNotFound);
    }
    var eventId := IntegerOf(x.eventId);
    CountByKeyAtMostOne(db.events, EventId, eventId, EventIs(eventId));
    if Count(db.events, EventIs(eventId)) > 0 {
      return EventRejected(DuplicateEventId);
    }
    if !IsCalendarDate(x.date.s) {
      return EventRejected(AddFailed(InvalidDateValue));
    }
    if !x.name.Str? {
      return EventRejected(AddFailed(InconsistentDatatypes));
    }
    var s := db.InsertEvent(NewEventRow(x));
    outcome := if s.Done? then EventAdded else EventRejected(AddFailed(s.error));
  }

  /** An event is added exactly when every check passes. */
  lemma AddEventSucceedsIff(reachable: bool, x: EventInput, organizerIds: set<int>, eventIds: set<int>)
    ensures AddEventResult(reachable, x, organizerIds, eventIds) == EventAdded <==>
      && reachable
      && ValidationError(x).None?
      && IntegerOf(x.organizerId) in organizerIds
      && IntegerOf(x.eventId) !in eventIds
      && IsCalendarDate(x.date.s)
      && x.name.Str?
  {
  }

  /** Each rejection names a check that failed after every earlier check
      passed. */
  lemma ValidationOrder(x: EventInput)
    ensures ValidationError(x) == Some(InvalidIds) ==>
      Truthy(x.eventId) && Truthy(x.organizerId) && Truthy(x.date) && Truthy(x.time) && Truthy(x.name)
    ensures ValidationError(x) == Some(InvalidExpense) ==> IsInteger(x.eventId) && IsInteger(x.organizerId)
    ensures ValidationError(x) == Some(InvalidDateFormat) ==> IsNumber(x.expense)
    ensures ValidationError(x) == Some(InvalidTimeFormat) ==> IsNumber(x.expense) && DateTest(x.date)
    ensures ValidationError(x) == Some(NameTooLong) ==> DateTest(x.date) && TimeTest(x.time)
    ensures ValidationError(x).None? <==>
      && Truthy(x.eventId) && Truthy(x.organizerId) && Truthy(x.date) && Truthy(x.time) && Truthy(x.name)
      && IsInteger(x.eventId) && IsInteger(x.organizerId) && IsNumber(x.expense)
      && DateTest(x.date) && TimeTest(x.time)
      && !(x.name.Str? && Utf16Length(x.name.s) > 50)
  {
  }

  /** A zero id is falsy, so it is reported as missing, not as invalid. */
  lemma ZeroIdIsMissing(x: EventInput)
    requires x.eventId == Num(0.0) || x.organizerId == Num(0.0)
    ensures ValidationError(x) == Some(MissingDetails)
  {
  }

  /** Expense is not among the required properties: zero passes, while an
      absent Expense fails the type check. */
  lemma ExpenseChecks(x: EventInput)
    requires ValidationError(x).None?
    ensures ValidationError(x.(expense := Num(0.0))).None?
    ensures ValidationError(x.(expense := Undefined)) == Some(InvalidExpense)
  {
  }

  /** A date the pattern accepts but the calendar does not gets past every
      check and fails in the INSERT. */
  lemma ImpossibleDateFailsAtInsert(x: EventInput, organizerIds: set<int>, eventIds: set<int>)
    requires ValidationError(x.(date := Str("2023-12-15"))).None?
    requires IntegerOf(x.organizerId) in organizerIds && IntegerOf(x.eventId) !in eventIds
    ensures ValidationError(x.(date := Str("2023-13-45"))).None?
    ensures AddEventResult(true, x.(date := Str("2023-13-45")), organizerIds, eventIds) == EventRejected(AddFailed(InvalidDateValue))
  {
    ImpossibleDatePasses();
  }

  /** Twenty-six characters above U+FFFF are 52 code units to JavaScript,
      so a name of them is too long for both `addEvent` and `updateEvent`
      though it has only 26 characters. */
  lemma AstralNameTooLong(x: EventInput)
    requires ValidationError(x.(name := Str("Tech Expo"))).None?
    ensures ValidationError(x.(name := Str(Emojis))) == Some(NameTooLong)
    ensures FieldError("EventName", Str(Emojis)) == Some(InvalidNameValue)
  {
    AstralTextCountsTwice(Emojis);
  }

  const Emojis: string := seq(26, _ => '\U{1F600}')

  // ---- updateEvent ----

  /** The properties of an update body in `Object.keys` order. */
  type Fields = seq<(string, JsValue)>

  /** An object has each property once. */
  predicate DistinctKeys(fields: Fields) {
    forall i, j :: 0 <= i < j < |fields| ==> fields[i].0 != fields[j].0
  }

  datatype UpdateError =
    | NoFields                    // the body has no properties
    | InvalidField(key: string)   // a property that is not an updatable column
    | InvalidOrganizerId          // OrganizerID is not an integer
    | InvalidExpenseValue         // Expense is not a number
    | InvalidTimeValue            // EventTime is not HH:MM
    | InvalidNameValue            // EventName is not a string of at most 50 UTF-16 code units
    | UpdateFailed(error: StoreError)

  datatype UpdateOutcome = Updated(rowsAffected: nat) | UpdateRejected(error: UpdateError)

  const UpdatableColumns: set<string> := {"OrganizerID", "Expense", "EventTime", "EventName", "EventDate"}

  /** The check the validation loop makes on one property. The loop skips
      EventDate before its `switch`, so EventDate is never checked. */
  function FieldError(key: string, v: JsValue): Option<UpdateError> {
    if key == "EventDate" then None
    else if key == "OrganizerID" then (if IsInteger(v) then None else Some(InvalidOrganizerId))
    else if key == "Expense" then (if IsNumber(v) then None else Some(InvalidExpenseValue))
    else if key == "EventTime" then (if TimeTest(v) then None else Some(InvalidTimeValue))
    else if key == "EventName" then (if v.Str? && Utf16Length(v.s) <= 50 then None else Some(InvalidNameValue))
    else Some(InvalidField(key))
  }

  /** The error the validation loop throws, if any: that of the first
      property that fails. */
  function FirstFieldError(fields: Fields): Option<UpdateError> {
    if fields == [] then None
    else if FieldError(fields[0].0, fields[0].1).Some? then FieldError(fields[0].0, fields[0].1)
    else FirstFieldError(fields[1..])
  }

  /** The `for ... in` loop over the body. */
  method ValidateEventUpdate(fields: Fields) returns (err: Option<UpdateError>)
    ensures err == FirstFieldError(fields)
  {
    var i := 0;
    while i < |fields|
      invariant 0 <= i <= |fields|
      invariant FirstFieldError(fields[i..]) == FirstFieldError(fields)
    {
      assert fields[i..][1..] == fields[i + 1..];
      var e := FieldError(fields[i].0, fields[i].1);
      if e.Some? {
        return e;
      }
      i := i + 1;
    }
    assert fields[i..] == [];
    err := None;
  }

  lemma {:induction false} FirstFieldErrorIsFirst(fields: Fields)
    ensures FirstFieldError(fields).None? <==> forall i :: 0 <= i < |fields| ==> FieldError(fields[i].0, fields[i].1).None?
    ensures FirstFieldError(fields).Some? ==>
      exists i :: 0 <= i < |fields| && FirstFieldError(fields) == FieldError(fields[i].0, fields[i].1) &&
                  forall j :: 0 <= j < i ==> FieldError(fields[j].0, fields[j].1).None?
  {
    if fields != [] {
      FirstFieldErrorIsFirst(fields[1..]);
      if FieldError(fields[0].0, fields[0].1).None? {
        if FirstFieldError(fields[1..]).Some? {
          var i :| 0 <= i < |fields[1..]| && FirstFieldError(fields[1..]) == FieldError(fields[1..][i].0, fields[1..][i].1) &&
                   forall j :: 0 <= j < i ==> FieldError(fields[1..][j].0, fields[1..][j].1).None?;
          assert fields[i + 1] == fields[1..][i];
          forall j | 0 <= j < i + 1 ensures FieldError(fields[j].0, fields[j].1).None? {
            if j > 0 {
              assert fields[j] == fields[1..][j - 1];
            }
          }
        } else {
          forall i | 0 <= i < |fields| ensures FieldError(fields[i].0, fields[i].1).None? {
            if i > 0 {
              assert fields[i] == fields[1..][i - 1];
            }
          }
        }
      }
    }
  }

  /** Only the five columns pass; EventID in particular cannot be changed;
      an EventDate passes whatever it holds. */
  lemma FieldErrorAllowList(key: string, v: JsValue)
    ensures key !in UpdatableColumns ==> FieldError(key, v) == Some(InvalidField(key))
    ensures FieldError("EventID", v) == Some(InvalidField("EventID"))
    ensures FieldError("EventDate", v).None?
  {
  }

  /** `TO_TIMESTAMP(:EventDate, 'YYYY-MM-DD"T"HH24:MI:SS.FF3"Z"')` on the
      bound value: NULL and the empty string give NULL; a calendar date,
      alone or as the full instant the mask describes, gives that day;
      anything else raises. */
  function DateColumn(v: JsValue): (r: Result<Option<string>>)
    ensures r.Ok? && r.value.Some? ==> IsCalendarDate(r.value.value)
  {
    match v
    case Undefined => Ok(None)
    case Null => Ok(None)
    case Str(s) =>
      if s == "" then Ok(None)
      else if IsCalendarDate(s) then Ok(Some(s))
      else if IsIsoInstant(s) then Ok(Some(s[..10]))
      else Err(InvalidDateValue)
    case _ => Err(InvalidDateValue)
  }

  /** A date as the lookups show it, the ISO instant of a stored day, can
      be sent back as EventDate and stores that same day. */
  lemma ShownDateWritesBack(e: EventRow)
    requires e.date.Some? && IsCalendarDate(e.date.value)
    ensures ViewOf(e).date == Iso(e.date.value)
    ensures DateColumn(Str(e.date.value + "T00:00:00.000Z")) == Ok(e.date)
  {
    var d, t := e.date.value, "T00:00:00.000Z";
    var s := d + t;
    assert s[..10] == d;
    assert s[10..] == t;
    assert s[11..16] == t[1..6] == "00:00";
  }

  predicate BadDate(key: string, v: JsValue) {
    key == "EventDate" && DateColumn(v).Err?
  }

  /** An empty EventName is bound as NULL into a NOT NULL column. */
  predicate NullsName(key: string, v: JsValue) {
    key == "EventName" && v == Str("")
  }

  /** A property the UPDATE can store. */
  predicate Assignable(key: string, v: JsValue) {
    FieldError(key, v).None? && !BadDate(key, v) && !NullsName(key, v)
  }

  /** A column of an EVENT row by its name. */
  function Column(e: EventRow, key: string): SqlValue {
    if key == "EventID" then SqlInt(e.id)
    else if key == "OrganizerID" then SqlInt(e.organizerId)
    else if key == "EventDate" then (if e.date.Some? then SqlText(e.date.value) else SqlNull)
    else if key == "Expense" then SqlInt(e.expense)
    else if key == "EventTime" then SqlText(e.time)
    else if key == "EventName" then SqlText(e.name)
    else SqlNull
  }

  /** The value `key = :key` stores. */
  function Stored(key: string, v: JsValue): SqlValue
    requires Assignable(key, v)
  {
    if key == "OrganizerID" then SqlInt(IntegerOf(v))
    else if key == "Expense" then SqlInt(OracleRound(v.n))
    else if key == "EventTime" then SqlText(v.s)
    else if key == "EventName" then SqlText(v.s)
    else if DateColumn(v).value.Some? then SqlText(DateColumn(v).value.value)
    else SqlNull
  }

  function SetColumn(e: EventRow, key: string, v: JsValue): (r: EventRow)
    requires Assignable(key, v)
    ensures Column(r, key) == Stored(key, v)
    ensures forall k :: k != key ==> Column(r, k) == Column(e, k)
  {
    if key == "OrganizerID" then e.(organizerId := IntegerOf(v))
    else if key == "Expense" then e.(expense := OracleRound(v.n))
    else if key == "EventTime" then e.(time := v.s)
    else if key == "EventName" then e.(name := v.s)
    else e.(date := DateColumn(v).value)
  }

  /** The row after `SET k1 = :k1, k2 = :k2, ...`. */
  function SetColumns(e: EventRow, fields: Fields): EventRow
    requires forall i :: 0 <= i < |fields| ==> Assignable(fields[i].0, fields[i].1)
    decreases |fields|
  {
    if fields == [] then e
    else SetColumns(SetColumn(e, fields[0].0, fields[0].1), fields[1..])
  }

  /** The UPDATE writes each named column and leaves every other column,
      the key among them, as it was. */
  lemma {:induction false} SetColumnsWritesNamedColumns(e: EventRow, fields: Fields)
    requires forall i :: 0 <= i < |fields| ==> Assignable(fields[i].0, fields[i].1)
    requires DistinctKeys(fields)
    ensures forall i :: 0 <= i < |fields| ==> Column(SetColumns(e, fields), fields[i].0) == Stored(fields[i].0, fields[i].1)
    ensures forall k :: (forall i :: 0 <= i < |fields| ==> fields[i].0 != k) ==> Column(SetColumns(e, fields), k) == Column(e, k)
    ensures SetColumns(e, fields).id == e.id
    decreases |fields|
  {
    if fields != [] {
      var tail := fields[1..];
      var e' := SetColumn(e, fields[0].0, fields[0].1);
      assert forall i :: 0 <= i < |tail| ==> tail[i] == fields[i + 1];
      SetColumnsWritesNamedColumns(e', tail);
      forall i | 0 <= i < |fields| ensures Column(SetColumns(e, fields), fields[i].0) == Stored(fields[i].0, fields[i].1) {
        if i == 0 {
          assert forall j :: 0 <= j < |tail| ==> tail[j].0 != fields[0].0;
        } else {
          assert fields[i] == tail[i - 1];
        }
      }
      forall k | (forall i :: 0 <= i < |fields| ==> fields[i].0 != k) ensures Column(SetColumns(e, fields), k) == Column(e, k) {
        assert forall j :: 0 <= j < |tail| ==> tail[j].0 != k;
      }
      assert e'.id == e.id;
    }
  }

  /** The whole decision of `updateEvent`: the body is checked before any
      connection is opened; then the UPDATE matches the row with the key,
      if any, converts the date, writes the row (NOT NULL) and checks the
      FOREIGN KEY. */
  function UpdateEventResult(reachable: bool, eventId: int, fields: Fields, events: seq<EventRow>, organizerIds: set<int>): UpdateOutcome {
    if |fields| == 0 then UpdateRejected(NoFields)
    else if FirstFieldError(fields).Some? then UpdateRejected(FirstFieldError(fields).value)
    else if !reachable then UpdateRejected(UpdateFailed(Unreachable))
    else if eventId !in Keys(events, EventId) then Updated(0)
    else if exists i :: 0 <= i < |fields| && BadDate(fields[i].0, fields[i].1) then UpdateRejected(UpdateFailed(InvalidDateValue))
    else if exists i :: 0 <= i < |fields| && NullsName(fields[i].0, fields[i].1) then UpdateRejected(UpdateFailed(NotNullViolation))
    else
      FirstFieldErrorIsFirst(fields);
      if SetColumns(events[IndexOf(events, EventId, eventId)], fields).organizerId !in organizerIds then
        UpdateRejected(UpdateFailed(ParentKeyNotFound))
      else Updated(1)
  }

  method UpdateEvent(db: Database, reachable: bool, eventId: int, fields: Fields) returns (outcome: UpdateOutcome)
    requires db.Valid() && DistinctKeys(fields)
    modifies db`events
    ensures db.Valid()
    ensures outcome == UpdateEventResult(reachable, eventId, fields, old(db.events), Keys(db.organizers, OrganizerId))
    ensures outcome == Updated(1) ==>
      (forall j :: 0 <= j < |fields| ==> Assignable(fields[j].0, fields[j].1)) &&
      exists i :: 0 <= i < |old(db.events)| && old(db.events)[i].id == eventId &&
                  db.events == old(db.events)[i := SetColumns(old(db.events)[i], fields)]
    ensures outcome != Updated(1) ==> db.events == old(db.events)
  {
    if |fields| == 0 {
      return UpdateRejected(NoFields);
    }
    var err := ValidateEventUpdate(fields);
    if err.Some? {
      return UpdateRejected(err.value);
    }
    if !reachable {
      return UpdateRejected(UpdateFailed(Unreachable));
    }
    if eventId !in Keys(db.events, EventId) {
      return Updated(0);
    }
    if exists i :: 0 <= i < |fields| && BadDate(fields[i].0, fields[i].1) {
      return UpdateRejected(UpdateFailed(InvalidDateValue));
    }
    if exists i :: 0 <= i < |fields| && NullsName(fields[i].0, fields[i].1) {
      return UpdateRejected(UpdateFailed(NotNullViolation));
    }
    FirstFieldErrorIsFirst(fields);
    var i := IndexOf(db.events, EventId, eventId);
    var row := SetColumns(db.events[i], fields);
    if row.organizerId !in Keys(db.organizers, OrganizerId) {
      return UpdateRejected(UpdateFailed(ParentKeyNotFound));
    }
    SetColumnsWritesNamedColumns(db.events[i], fields);
    db.WriteEvent(i, row);
    outcome := Updated(1);
  }

  /** A body that is empty or fails a check is refused the same way whether
      or not the store is reachable and whatever it holds. */
  lemma ValidationPrecedesStore(fields: Fields, r1: bool, id1: int, events1: seq<EventRow>, organizers1: set<int>,
                                r2: bool, id2: int, events2: seq<EventRow>, organizers2: set<int>)
    requires |fields| == 0 || FirstFieldError(fields).Some?
    ensures UpdateEventResult(r1, id1, fields, events1, organizers1) == UpdateEventResult(r2, id2, fields, events2, organizers2)
    ensures UpdateEventResult(r1, id1, fields, events1, organizers1).UpdateRejected?
  {
  }

  /** A valid body naming an event that does not exist updates nothing and
      raises nothing. */
  lemma UnknownEventUpdatesNothing(eventId: int, fields: Fields, events: seq<EventRow>, organizerIds: set<int>)
    requires |fields| > 0 && FirstFieldError(fields).None? && eventId !in Keys(events, EventId)
    ensures UpdateEventResult(true, eventId, fields, events, organizerIds) == Updated(0)
  {
  }

  /** Any EventDate value reaches the store unchecked; a number there gets
      past validation and fails only in TO_TIMESTAMP. */
  lemma EventDateNeverValidated(eventId: int, events: seq<EventRow>, organizerIds: set<int>)
    requires eventId in Keys(events, EventId)
    ensures FirstFieldError([("EventDate", Num(5.0))]).None?
    ensures UpdateEventResult(true, eventId, [("EventDate", Num(5.0))], events, organizerIds) == UpdateRejected(UpdateFailed(InvalidDateValue))
  {
    assert BadDate([("EventDate", Num(5.0))][0].0, [("EventDate", Num(5.0))][0].1);
  }

  // ---- deleteEvent ----

  /** A row of another table that references the event (ORA-02292). */
  predicate HasEventDependents(db: Database, eventId: int)
    reads db
  {
    || (exists f :: f in db.feedback && f.eventId == Some(eventId))
    || (exists s :: s in db.supports && s.eventId == eventId)
    || (exists p :: p in db.photos && p.eventId == eventId)
    || (exists a :: a in db.attendance && a.eventId == eventId)
    || (exists l :: l in db.eventLocations && l.eventId == eventId)
  }

  /** `DELETE FROM EVENT WHERE EventID = :EventID`; its rowsAffected, or the
      error it raises, which `deleteEvent` rethrows. */
  method DeleteEvent(db: Database, reachable: bool, eventId: int) returns (r: Result<nat>)
    requires db.Valid()
    modifies db`events
    ensures db.Valid()
    ensures !reachable ==> r == Err(Unreachable)
    ensures reachable && HasEventDependents(db, eventId) ==> r == Err(ChildRecordFound)
    ensures reachable && !HasEventDependents(db, eventId) ==>
      r == Ok(if eventId in Keys(old(db.events), EventId) then 1 else 0)
    ensures r.Ok? ==> db.events == Filter(old(db.events), OtherEvent(eventId)) &&
                      Keys(db.events, EventId) == Keys(old(db.events), EventId) - {eventId}
    ensures r.Err? ==> db.events == old(db.events)
  {
    if !reachable {
      return Err(Unreachable);
    }
    if HasEventDependents(db, eventId) {
      return Err(ChildRecordFound);
    }
    var n := Count(db.events, EventIs(eventId));
    CountByKeyAtMostOne(db.events, EventId, eventId, EventIs(eventId));
    db.DeleteEventRow(eventId);
    r := Ok(n);
  }

  // ---- getAllEvents and getEventById ----

  /** `getAllEvents`: every row in scan order, or an empty list when the
      connection fails. */
  function AllEvents(events: seq<EventRow>, reachable: bool): (r: seq<EventView>)
    ensures |r| == (if reachable then |events| else 0)
    ensures forall i :: 0 <= i < |r| ==> r[i] == ViewOf(events[i])
  {
    if reachable then seq(|events|, i requires 0 <= i < |events| => ViewOf(events[i])) else []
  }

  datatype EventLookup =
    | Found(view: EventView)
    | NoSuchEvent                      // the function returns null
    | LookupThrew(error: LookupError)  // the error is rethrown

  datatype LookupError = StoreDown(error: StoreError) | NullDateDereferenced

  /** `getEventById`: the first row with the key. Its date is read with
      `toISOString()` unguarded, so a NULL date throws. */
  function EventById(events: seq<EventRow>, reachable: bool, eventId: int): (r: EventLookup)
    ensures !reachable ==> r == LookupThrew(StoreDown(Unreachable))
    ensures reachable ==> (r == NoSuchEvent <==> eventId !in Keys(events, EventId))
    ensures r.Found? ==> exists e :: e in events && e.id == eventId && e.date.Some? && r.view == ViewOf(e)
    ensures reachable && r.LookupThrew? ==>
      r.error == NullDateDereferenced && (exists e :: e in events && e.id == eventId && e.date.None?)
  {
    if !reachable then LookupThrew(StoreDown(Unreachable))
    else if eventId !in Keys(events, EventId) then NoSuchEvent
    else
      var e := events[IndexOf(events, EventId, eventId)];
      if e.date.None? then LookupThrew(NullDateDereferenced) else Found(ViewOf(e))
  }

  /** With the key constraint, the lookup returns the one row with the key,
      exactly as the full listing shows it. */
  lemma EventByIdAgreesWithAllEvents(events: seq<EventRow>, e: EventRow)
    requires Unique(events, EventId) && e in events && e.date.Some?
    ensures EventById(events, true, e.id) == Found(ViewOf(e))
    ensures ViewOf(e) in AllEvents(events, true)
  {
    var j :| 0 <= j < |events| && events[j] == e;
    var i := IndexOf(events, EventId, e.id);
    assert i == j;
    assert AllEvents(events, true)[j] == ViewOf(e);
  }

  // ---- averages ----

  /** The non-NULL ratings of the event's feedback. */
  function Ratings(feedback: seq<FeedbackRow>, eventId: int): (rs: seq<int>)
    ensures forall r :: r in rs <==> exists f :: f in feedback && f.eventId == Some(eventId) && f.rating == Some(r)
  {
    if feedback == [] then []
    else
      (if feedback[0].eventId == Some(eventId) && feedback[0].rating.Some? then [feedback[0].rating.value] else []) +
      Ratings(feedback[1..], eventId)
  }

  function Sum(xs: seq<int>): int {
    if xs == [] then 0 else xs[0] + Sum(xs[1..])
  }

  /** `AVG(F.Rating)` over the event's feedback rows: NULL ratings are
      ignored, and with no rating left the average is NULL. */
  function Average(feedback: seq<FeedbackRow>, eventId: int): (avg: Option<real>)
    ensures avg.None? <==> forall f :: f in feedback && f.eventId == Some(eventId) ==> f.rating.None?
  {
    var rs := Ratings(feedback, eventId);
    if |rs| == 0 then None
    else
      assert rs[0] in rs;
      Some(Sum(rs) as real / |rs| as real)
  }

  lemma {:induction false} SumBounds(xs: seq<int>, lo: int, hi: int)
    requires forall x :: x in xs ==> lo <= x <= hi
    ensures |xs| * lo <= Sum(xs) <= |xs| * hi
  {
    if xs != [] {
      assert forall x :: x in xs[1..] ==> x in xs;
      SumBounds(xs[1..], lo, hi);
      var n := |xs| - 1;
      assert |xs| == n + 1 && |xs[1..]| == n && xs[0] in xs;
      assert Sum(xs) == xs[0] + Sum(xs[1..]);
      assert (n + 1) * lo == n * lo + lo && (n + 1) * hi == n * hi + hi;
    }
  }

  /** The average lies between the lowest and the highest rating given:
      ratings kept to 1..5 average within 1..5. */
  lemma AverageWithinRatings(feedback: seq<FeedbackRow>, eventId: int, lo: int, hi: int)
    requires forall f :: f in feedback && f.eventId == Some(eventId) && f.rating.Some? ==> lo <= f.rating.value <= hi
    requires Average(feedback, eventId).Some?
    ensures lo as real <= Average(feedback, eventId).value <= hi as real
  {
    var rs := Ratings(feedback, eventId);
    forall x | x in rs ensures lo <= x <= hi {
      var f :| f in feedback && f.eventId == Some(eventId) && f.rating == Some(x);
    }
    SumBounds(rs, lo, hi);
    MeanBounds(Sum(rs), |rs|, lo, hi);
  }

  lemma MeanBounds(s: int, n: int, lo: int, hi: int)
    requires n > 0 && n * lo <= s <= n * hi
    ensures lo as real <= s as real / n as real <= hi as real
  {
    assert (n * lo) as real == n as real * lo as real;
    assert (n * hi) as real == n as real * hi as real;
    QuotientBounds(s as real, n as real, lo as real, hi as real);
  }

  lemma QuotientBounds(s: real, n: real, lo: real, hi: real)
    requires n > 0.0 && n * lo <= s <= n * hi
    ensures lo <= s / n <= hi
  {
    assert s / n * n == s;
  }

  /** `AverageRating ? ... : null`: a NULL average and an average of zero
      are both reported as null. */
  function Shown(avg: Option<real>): (r: Option<real>)
    ensures r.None? <==> avg.None? || avg.value == 0.0
    ensures r.Some? ==> r == avg
  {
    if avg.Some? && avg.value != 0.0 then avg else None
  }

  // ---- getEventSummaries ----

  /** The query parameters of the summaries report. A parameter that is
      absent or given as empty text is falsy and is `None`; for the name,
      `Some("")` is falsy too. Any other text is truthy, "0" included. */
  datatype SummaryFilters = SummaryFilters(minAverageRating: Option<real>, organizerId: Option<int>, eventName: Option<string>)

  /** A condition pushed onto the WHERE list. */
  datatype Condition = ByOrganizer(id: int) | NameLike(text: string)

  /** A condition pushed onto the HAVING list. */
  datatype HavingCondition = AverageAtLeast(min: real)

  predicate ConditionHolds(c: Condition, e: EventRow) {
    match c
    case ByOrganizer(id) => e.organizerId == id
    case NameLike(text) => ContainsIgnoringCase(e.name, text)
  }

  /** A comparison with a NULL average is unknown, which HAVING drops. */
  predicate HavingHolds(h: HavingCondition, avg: Option<real>) {
    avg.Some? && avg.value >= h.min
  }

  /** The groups the statement keeps: WHERE on the event, HAVING on its
      group's average. */
  function Keep(conditions: seq<Condition>, having: seq<HavingCondition>, feedback: seq<FeedbackRow>): EventRow -> bool {
    (e: EventRow) =>
      (forall c :: c in conditions ==> ConditionHolds(c, e)) &&
      (forall h :: h in having ==> HavingHolds(h, Average(feedback, e.id)))
  }

  /** Which events the summaries report lists, stated from the filters. */
  predicate SummaryMatches(filters: SummaryFilters, e: EventRow, avg: Option<real>) {
    && (filters.organizerId.Some? ==> e.organizerId == filters.organizerId.value)
    && (filters.eventName.Some? && filters.eventName.value != "" ==> ContainsIgnoringCase(e.name, filters.eventName.value))
    && (filters.minAverageRating.Some? ==> avg.Some? && avg.value >= filters.minAverageRating.value)
  }

  /** The organizer name the LEFT JOIN pairs with an organizer id: the
      first matching row's name, NULL when none matches. */
  function OrganizerNameOf(organizers: seq<OrganizerRow>, organizerId: int): (name: Option<string>)
    ensures name.Some? ==> exists o :: o in organizers && o.id == organizerId && o.name == name
  {
    if organizers == [] then None
    else if organizers[0].id == organizerId then organizers[0].name
    else OrganizerNameOf(organizers[1..], organizerId)
  }

  /** With the key constraint the join finds the organizer's own name. */
  lemma {:induction false} OrganizerNameOfUnique(organizers: seq<OrganizerRow>, o: OrganizerRow)
    requires Unique(organizers, OrganizerId) && o in organizers
    ensures OrganizerNameOf(organizers, o.id) == o.name
  {
    if organizers[0] != o {
      var tail := organizers[1..];
      var j :| 0 <= j < |organizers| && organizers[j] == o;
      assert j > 0 && tail[j - 1] == o;
      assert Unique(tail, OrganizerId) by {
        forall a, b | 0 <= a < b < |tail| ensures OrganizerId(tail[a]) != OrganizerId(tail[b]) {
          assert tail[a] == organizers[a + 1] && tail[b] == organizers[b + 1];
        }
      }
      OrganizerNameOfUnique(tail, o);
    }
  }

  datatype SummaryRow = SummaryRow(
    eventId: int, eventName: string, date: DateShown, time: string,
    organizerName: Option<string>, averageRating: Option<real>)

  function SummaryOf(organizers: seq<OrganizerRow>, feedback: seq<FeedbackRow>, e: EventRow): SummaryRow {
    SummaryRow(e.id, e.name, IsoOrEpoch(e.date), e.time, OrganizerNameOf(organizers, e.organizerId), Shown(Average(feedback, e.id)))
  }

  /** `getEventSummaries`: the filters push conditions onto two lists, the
      statement keeps one group per event that passes them, and a failed
      connection gives an empty list. */
  method GetEventSummaries(db: Database, reachable: bool, filters: SummaryFilters) returns (rows: seq<SummaryRow>)
    requires db.Valid()
    ensures !reachable ==> rows == []
    ensures reachable ==> forall r :: r in rows <==>
      exists e :: e in db.events && SummaryMatches(filters, e, Average(db.feedback, e.id)) &&
                  r == SummaryOf(db.organizers, db.feedback, e)
    ensures forall i, j :: 0 <= i < j < |rows| ==> rows[i].eventId != rows[j].eventId
  {
    if !reachable {
      return [];
    }
    var conditions: seq<Condition> := [];
    var having: seq<HavingCondition> := [];
    if filters.minAverageRating.Some? {
      having := having + [AverageAtLeast(filters.minAverageRating.value)];
    }
    if filters.organizerId.Some? {
      conditions := conditions + [ByOrganizer(filters.organizerId.value)];
    }
    if filters.eventName.Some? && filters.eventName.value != "" {
      conditions := conditions + [NameLike(filters.eventName.value)];
    }
    var keep := Keep(conditions, having, db.feedback);
    KeepMeansFilters(filters, conditions, having, db.feedback);
    var organizers, feedback := db.organizers, db.feedback;
    var kept := Filter(db.events, keep);
    rows := seq(|kept|, i requires 0 <= i < |kept| => SummaryOf(organizers, feedback, kept[i]));
    SummaryRowsAreKeptEvents(db.events, organizers, feedback, keep, filters, rows);
  }

  /** One summary row per kept event, and only those. */
  lemma SummaryRowsAreKeptEvents(events: seq<EventRow>, organizers: seq<OrganizerRow>, feedback: seq<FeedbackRow>,
                                 keep: EventRow -> bool, filters: SummaryFilters, rows: seq<SummaryRow>)
    requires Unique(events, EventId)
    requires forall e :: keep(e) <==> SummaryMatches(filters, e, Average(feedback, e.id))
    requires var kept := Filter(events, keep);
      |rows| == |kept| && forall i :: 0 <= i < |kept| ==> rows[i] == SummaryOf(organizers, feedback, kept[i])
    ensures forall r :: r in rows <==>
      exists e :: e in events && SummaryMatches(filters, e, Average(feedback, e.id)) && r == SummaryOf(organizers, feedback, e)
    ensures forall i, j :: 0 <= i < j < |rows| ==> rows[i].eventId != rows[j].eventId
  {
    var kept := Filter(events, keep);
    FilterKeepsUnique(events, keep, EventId);
    forall r | r in rows
      ensures exists e :: e in events && SummaryMatches(filters, e, Average(feedback, e.id)) && r == SummaryOf(organizers, feedback, e)
    {
      var i :| 0 <= i < |rows| && rows[i] == r;
      assert kept[i] in kept;
    }
    forall e | e in events && SummaryMatches(filters, e, Average(feedback, e.id))
      ensures SummaryOf(organizers, feedback, e) in rows
    {
      assert e in kept;
      var i :| 0 <= i < |kept| && kept[i] == e;
      assert rows[i] == SummaryOf(organizers, feedback, e);
    }
    forall i, j | 0 <= i < j < |rows| ensures rows[i].eventId != rows[j].eventId {
      assert EventId(kept[i]) != EventId(kept[j]);
    }
  }

  /** The pushed conditions say what the filters say. */
  lemma KeepMeansFilters(filters: SummaryFilters, conditions: seq<Condition>, having: seq<HavingCondition>, feedback: seq<FeedbackRow>)
    requires conditions ==
      (if filters.organizerId.Some? then [ByOrganizer(filters.organizerId.value)] else []) +
      (if filters.eventName.Some? && filters.eventName.value != "" then [NameLike(filters.eventName.value)] else [])
    requires having == if filters.minAverageRating.Some? then [AverageAtLeast(filters.minAverageRating.value)] else []
    ensures forall e :: Keep(conditions, having, feedback)(e) <==> SummaryMatches(filters, e, Average(feedback, e.id))
  {
    forall e ensures Keep(conditions, having, feedback)(e) <==> SummaryMatches(filters, e, Average(feedback, e.id)) {
      var avg := Average(feedback, e.id);
      var org := filters.organizerId.Some? ==> e.organizerId == filters.organizerId.value;
      var name := filters.eventName.Some? && filters.eventName.value != "" ==>
                  ContainsIgnoringCase(e.name, filters.eventName.value);
      var min := filters.minAverageRating.Some? ==> avg.Some? && avg.value >= filters.minAverageRating.value;
      if forall c :: c in conditions ==> ConditionHolds(c, e) {
        if filters.organizerId.Some? {
          assert ByOrganizer(filters.organizerId.value) in conditions;
        }
        if filters.eventName.Some? && filters.eventName.value != "" {
          assert NameLike(filters.eventName.value) in conditions;
        }
        assert org && name;
      }
      if org && name {
        forall c | c in conditions ensures ConditionHolds(c, e) {
        }
      }
      if forall h :: h in having ==> HavingHolds(h, avg) {
        if filters.minAverageRating.Some? {
          assert AverageAtLeast(filters.minAverageRating.value) in having;
        }
        assert min;
      }
      if min {
        forall h | h in having ensures HavingHolds(h, avg) {
        }
      }
    }
  }

  /** With no filters every event is summarised; an event without rated
      feedback has a null average. */
  lemma UnfilteredSummaries(filters: SummaryFilters, e: EventRow, feedback: seq<FeedbackRow>)
    requires filters.minAverageRating.None? && filters.organizerId.None?
    requires filters.eventName.None? || filters.eventName == Some("")
    ensures SummaryMatches(filters, e, Average(feedback, e.id))
    ensures (forall f :: f in feedback && f.eventId == Some(e.id) ==> f.rating.None?) ==>
              SummaryOf([], feedback, e).averageRating.None?
  {
  }

  /** A minimum rating of "0" is truthy: it drops every event without a
      rated feedback row, which no filter at all keeps. */
  lemma ZeroMinimumDropsUnrated(e: EventRow, feedback: seq<FeedbackRow>)
    requires forall f :: f in feedback && f.eventId == Some(e.id) ==> f.rating.None?
    ensures !SummaryMatches(SummaryFilters(Some(0.0), None, None), e, Average(feedback, e.id))
    ensures SummaryMatches(SummaryFilters(None, None, None), e, Average(feedback, e.id))
  {
  }

  // ---- getHighRatedEventsDetailed ----

  /** `AVG(F.Rating) > :ratingThreshold` after the inner join: an event
      needs at least one feedback row with a rating. */
  predicate RatedAbove(feedback: seq<FeedbackRow>, eventId: int, threshold: real) {
    var avg := Average(feedback, eventId);
    avg.Some? && avg.value > threshold
  }

  datatype HighRatedRow = HighRatedRow(
    id: int, organizerId: int, date: DateShown, expense: int, time: string, name: string,
    averageRating: Option<real>)

  /** Here a NULL date is reported as null, not as the epoch. */
  function HighRatedRowOf(feedback: seq<FeedbackRow>, e: EventRow): HighRatedRow {
    HighRatedRow(e.id, e.organizerId, IsoOrNull(e.date), e.expense, e.time, e.name, Shown(Average(feedback, e.id)))
  }

  /** `getHighRatedEventsDetailed`: one row per event rated above the
      threshold; an empty list when the connection fails. */
  function HighRated(events: seq<EventRow>, feedback: seq<FeedbackRow>, reachable: bool, threshold: real): (rows: seq<HighRatedRow>)
    ensures forall r :: r in rows <==>
      reachable && exists e :: e in events && RatedAbove(feedback, e.id, threshold) && r == HighRatedRowOf(feedback, e)
  {
    if !reachable || events == [] then []
    else
      (if RatedAbove(feedback, events[0].id, threshold) then [HighRatedRowOf(feedback, events[0])] else []) +
      HighRated(events[1..], feedback, reachable, threshold)
  }

  /** Every event the report lists has a rated feedback row and passes the
      summaries report's minimum-rating filter at the same threshold. */
  lemma HighRatedAreRatedSummaries(events: seq<EventRow>, feedback: seq<FeedbackRow>, threshold: real, e: EventRow)
    requires e in events && HighRatedRowOf(feedback, e) in HighRated(events, feedback, true, threshold)
    ensures exists f :: f in feedback && f.eventId == Some(e.id) && f.rating.Some?
    ensures SummaryMatches(SummaryFilters(Some(threshold), None, None), e, Average(feedback, e.id))
  {
    var e' :| e' in events && RatedAbove(feedback, e'.id, threshold) && HighRatedRowOf(feedback, e) == HighRatedRowOf(feedback, e');
    assert e'.id == e.id;
  }

  // ---- getEventsByOrganizerAndName ----

  function SearchMatches(organizerId: Option<int>, eventName: Option<string>): EventRow -> bool {
    (e: EventRow) =>
      (organizerId.Some? ==> e.organizerId == organizerId.value) &&
      (eventName.Some? && eventName.value != "" ==> ContainsIgnoringCase(e.name, eventName.value))
  }

  /** `getEventsByOrganizerAndName`: a truthy organizer id and a non-empty
      name each add a condition; an empty list when the connection fails. */
  function EventsByOrganizerAndName(events: seq<EventRow>, reachable: bool, organizerId: Option<int>, eventName: Option<string>): (r: seq<EventView>)
    ensures forall e :: e in events ==>
      (ViewOf(e) in r <==> reachable && SummaryMatches(SummaryFilters(None, organizerId, eventName), e, None))
    ensures forall v :: v in r ==> exists e :: e in events && v == ViewOf(e)
  {
    if !reachable then []
    else
      var kept := Filter(events, SearchMatches(organizerId, eventName));
      var r := seq(|kept|, i requires 0 <= i < |kept| => ViewOf(kept[i]));
      assert forall e :: e in events ==> (SearchMatches(organizerId, eventName)(e) ==> ViewOf(e) in r) by {
        forall e | e in events && SearchMatches(organizerId, eventName)(e) ensures ViewOf(e) in r {
          var i :| 0 <= i < |kept| && kept[i] == e;
          assert r[i] == ViewOf(e);
        }
      }
      assert forall v :: v in r ==> exists e :: e in kept && v == ViewOf(e) by {
        forall v | v in r ensures exists e :: e in kept && v == ViewOf(e) {
          var i :| 0 <= i < |r| && r[i] == v;
          assert kept[i] in kept;
        }
      }
      r
  }

  /** With neither filter the search is the full listing. */
  lemma UnfilteredSearchListsAll(events: seq<EventRow>, reachable: bool, eventName: Option<string>)
    requires eventName.None? || eventName == Some("")
    ensures EventsByOrganizerAndName(events, reachable, None, eventName) == AllEvents(events, reachable)
  {
    if reachable {
      FilterAll(events, SearchMatches(None, eventName));
    }
  }
}
