/** The FEEDBACK model: the full scan, the INSERT of one feedback row, the
    UPDATE of the supplied columns of one row, and the DELETE by id. The
    rating the reports average is stored as given, with no range check. */
module Feedback {
  import opened Rows
  import opened Store

  // ---- getAllFeedbacks ----

  /** `SELECT * FROM FEEDBACK`, or `[]` when the store cannot be reached. */
  function AllFeedback(feedback: seq<FeedbackRow>, reachable: bool): seq<FeedbackRow> {
    Scan(feedback, reachable)
  }

  /** A caller cannot tell a failed connection from an empty table. */
  lemma FailureReadsAsNoFeedback(feedback: seq<FeedbackRow>)
    ensures AllFeedback(feedback, false) == AllFeedback([], true) == []
    ensures AllFeedback(feedback, true) == feedback
  {
  }

  // ---- addFeedBack ----

  /** The four properties of the request body the INSERT binds; `None`
      stands for a missing property or `null`. */
  datatype FeedbackInput = FeedbackInput(id: Option<int>, eventId: Option<int>, rating: Option<int>, comment: Option<string>)

  /** The row the INSERT writes; an empty comment is stored as NULL. */
  function NewFeedbackRow(x: FeedbackInput): (f: FeedbackRow)
    requires x.id.Some?
    ensures f.id == x.id.value && f.eventId == x.eventId && f.rating == x.rating && f.comment == Text(x.comment)
  {
    FeedbackRow(x.id.value, x.eventId, x.rating, Text(x.comment))
  }

  /** What `addFeedBack` returns: the INSERT's outcome, any store error
      caught and returned rather than thrown. */
  function AddFeedbackResult(reachable: bool, x: FeedbackInput, feedback: seq<FeedbackRow>, eventIds: set<int>): AddOutcome {
    if !reachable then NotAdded(Unreachable)
    else if x.id.None? then NotAdded(NotNullViolation)
    else if x.id.value in Keys(feedback, FeedbackId) then NotAdded(UniqueViolation)
    else if x.eventId.Some? && x.eventId.value !in eventIds then NotAdded(ParentKeyNotFound)
    else Added
  }

  method AddFeedback(db: Database, reachable: bool, x: FeedbackInput) returns (outcome: AddOutcome)
    requires db.Valid()
    modifies db`feedback
    ensures db.Valid()
    ensures outcome == AddFeedbackResult(reachable, x, old(db.feedback), Keys(db.events, EventId))
    ensures db.feedback == if outcome.Added? then old(db.feedback) + [NewFeedbackRow(x)] else old(db.feedback)
  {
    if !reachable {
      return NotAdded(Unreachable);
    }
    if x.id.None? {
      return NotAdded(NotNullViolation);
    }
    var s := db.InsertFeedback(NewFeedbackRow(x));
    outcome := if s.Done? then Added else NotAdded(s.error);
  }

  /** Any integer rating is stored: whether a row is added never depends on
      its rating. */
  lemma AnyRatingIsStored(reachable: bool, x: FeedbackInput, rating: Option<int>, feedback: seq<FeedbackRow>, eventIds: set<int>)
    ensures AddFeedbackResult(reachable, x.(rating := rating), feedback, eventIds) == AddFeedbackResult(reachable, x, feedback, eventIds)
  {
  }

  /** A feedback row with a fresh id about an existing event is added, and
      the row holds the rating as given, out of any range or not. */
  lemma OutOfRangeRatingAdded(id: int, eventId: int, feedback: seq<FeedbackRow>, eventIds: set<int>)
    requires id !in Keys(feedback, FeedbackId) && eventId in eventIds
    ensures AddFeedbackResult(true, FeedbackInput(Some(id), Some(eventId), Some(-7), None), feedback, eventIds) == Added
    ensures AddFeedbackResult(true, FeedbackInput(Some(id), Some(eventId), Some(100), None), feedback, eventIds) == Added
    ensures NewFeedbackRow(FeedbackInput(Some(id), Some(eventId), Some(100), None)).rating == Some(100)
  {
  }

  // ---- updateFeedBack ----

  function ColumnTypeOf(name: string): Option<ColumnType> {
    if name == "FeedbackID" || name == "EventID" || name == "Rating" then Some(IntColumn)
    else if name == "Feedback" then Some(TextColumn)
    else None
  }

  /** The value a FEEDBACK column holds. */
  function Column(f: FeedbackRow, name: string): SqlValue {
    if name == "FeedbackID" then SqlInt(f.id)
    else if name == "EventID" then IntValue(f.eventId)
    else if name == "Rating" then IntValue(f.rating)
    else if name == "Feedback" then TextValue(f.comment)
    else SqlNull
  }

  /** `name = :name` on one row. */
  function Assign(f: FeedbackRow, name: string, v: SqlValue): FeedbackRow {
    if name == "FeedbackID" && v.SqlInt? then f.(id := v.i)
    else if name == "EventID" then f.(eventId := OptionalInt(v))
    else if name == "Rating" then f.(rating := OptionalInt(v))
    else if name == "Feedback" then f.(comment := OptionalText(v))
    else f
  }

  /** A known column bound to a value of another type. */
  predicate Mismatch(name: string, v: SqlValue) {
    ColumnTypeOf(name).Some? && !Fits(ColumnTypeOf(name).value, v)
  }

  /** A value the column takes: the right type, and not NULL for the key. */
  predicate Assignable(name: string, v: SqlValue) {
    && ColumnTypeOf(name).Some? && Fits(ColumnTypeOf(name).value, v)
    && !(name == "FeedbackID" && v == SqlNull)
  }

  /** Assigning a column stores the value in that column and nowhere else. */
  lemma AssignWritesOneColumn()
    ensures forall f, k, v, k' :: Assignable(k, v) ==>
      Column(Assign(f, k, v), k') == if k' == k then NullIfEmpty(v) else Column(f, k')
  {
  }

  /** `{ ...updateFields, FeedbackID: feedbackID }`. */
  function Bound(fields: Assignments, feedbackId: int): Assignments {
    Rebind(fields, map["FeedbackID" := SqlInt(feedbackId)])
  }

  /** What `updateFeedBack` returns or rethrows: rowsAffected, or the
      store's error. An empty SET list and an unknown column fail when the
      statement is parsed, whether or not a row matches. */
  function UpdateFeedbackResult(reachable: bool, feedbackId: int, fields: Assignments,
                                feedback: seq<FeedbackRow>, eventIds: set<int>): Result<nat> {
    if !reachable then Err(Unreachable)
    else if fields == [] then Err(MissingExpression)
    else if exists i :: 0 <= i < |fields| && ColumnTypeOf(fields[i].0).None? then Err(InvalidIdentifier)
    else if feedbackId !in Keys(feedback, FeedbackId) then Ok(0)
    else UpdateRowResult(feedback[IndexOf(feedback, FeedbackId, feedbackId)], fields, eventIds)
  }

  /** The UPDATE of the one matching row: the types of the bound values,
      NOT NULL, then the FOREIGN KEY on EventID. */
  function UpdateRowResult(f: FeedbackRow, fields: Assignments, eventIds: set<int>): Result<nat> {
    var bound := Bound(fields, f.id);
    if exists i :: 0 <= i < |bound| && Mismatch(bound[i].0, bound[i].1) then Err(InconsistentDatatypes)
    else if exists i :: 0 <= i < |bound| && !Assignable(bound[i].0, bound[i].1) then Err(NotNullViolation)
    else
      var row := SetAll(f, bound, Assign);
      if row.eventId.Some? && row.eventId.value !in eventIds then Err(ParentKeyNotFound)
      else Ok(1)
  }

  /** The row after the SET list keeps its id, holds each supplied value in
      its column, and keeps every other column. */
  lemma UpdateWritesSuppliedColumns(f: FeedbackRow, fields: Assignments)
    requires DistinctColumns(fields)
    requires forall i :: 0 <= i < |fields| ==> Assignable(Bound(fields, f.id)[i].0, Bound(fields, f.id)[i].1)
    ensures SetAll(f, Bound(fields, f.id), Assign).id == f.id
    ensures forall i :: 0 <= i < |fields| && fields[i].0 != "FeedbackID" ==>
      Column(SetAll(f, Bound(fields, f.id), Assign), fields[i].0) == NullIfEmpty(fields[i].1)
    ensures forall k :: (forall i :: 0 <= i < |fields| ==> fields[i].0 != k) ==>
      Column(SetAll(f, Bound(fields, f.id), Assign), k) == Column(f, k)
  {
    var keys := map["FeedbackID" := SqlInt(f.id)];
    assert Bound(fields, f.id) == Rebind(fields, keys);
    AssignWritesOneColumn();
    SetAllRebound(f, fields, keys, Assign, Column, Assignable);
    assert Column(SetAll(f, Bound(fields, f.id), Assign), "FeedbackID") == SqlInt(f.id);
  }

  method UpdateFeedback(db: Database, reachable: bool, feedbackId: int, fields: Assignments) returns (r: Result<nat>)
    requires db.Valid() && DistinctColumns(fields)
    modifies db`feedback
    ensures db.Valid()
    ensures r == UpdateFeedbackResult(reachable, feedbackId, fields, old(db.feedback), Keys(db.events, EventId))
    ensures r == Ok(1) ==>
      exists i :: 0 <= i < |old(db.feedback)| && old(db.feedback)[i].id == feedbackId &&
                  db.feedback == old(db.feedback)[i := SetAll(old(db.feedback)[i], Bound(fields, feedbackId), Assign)]
    ensures r != Ok(1) ==> db.feedback == old(db.feedback)
  {
    if !reachable {
      return Err(Unreachable);
    }
    if fields == [] {
      return Err(MissingExpression);
    }
    if exists i :: 0 <= i < |fields| && ColumnTypeOf(fields[i].0).None? {
      return Err(InvalidIdentifier);
    }
    if feedbackId !in Keys(db.feedback, FeedbackId) {
      return Ok(0);
    }
    var i := IndexOf(db.feedback, FeedbackId, feedbackId);
    r := UpdateRow(db, i, fields);
  }

  /** The SET list applied to the row at `i`, when the store accepts it. */
  method UpdateRow(db: Database, i: int, fields: Assignments) returns (r: Result<nat>)
    requires db.Valid() && 0 <= i < |db.feedback| && DistinctColumns(fields)
    modifies db`feedback
    ensures db.Valid()
    ensures r == UpdateRowResult(old(db.feedback)[i], fields, Keys(db.events, EventId))
    ensures db.feedback == if r == Ok(1) then old(db.feedback)[i := SetAll(old(db.feedback)[i], Bound(fields, old(db.feedback)[i].id), Assign)]
                           else old(db.feedback)
  {
    var bound := Bound(fields, db.feedback[i].id);
    if exists j :: 0 <= j < |bound| && Mismatch(bound[j].0, bound[j].1) {
      return Err(InconsistentDatatypes);
    }
    if exists j :: 0 <= j < |bound| && !Assignable(bound[j].0, bound[j].1) {
      return Err(NotNullViolation);
    }
    var row := SetAll(db.feedback[i], bound, Assign);
    if row.eventId.Some? && row.eventId.value !in Keys(db.events, EventId) {
      return Err(ParentKeyNotFound);
    }
    UpdateWritesSuppliedColumns(db.feedback[i], fields);
    db.WriteFeedback(i, row);
    r := Ok(1);
  }

  /** Moving feedback to an event that does not exist is refused by the
      foreign key, and the row stays as it was. */
  lemma MoveToMissingEventRefused(f: FeedbackRow, eventId: int, eventIds: set<int>)
    requires eventId !in eventIds
    ensures UpdateFeedbackResult(true, f.id, [("EventID", SqlInt(eventId))], [f], eventIds) == Err(ParentKeyNotFound)
  {
    var fields: Assignments := [("EventID", SqlInt(eventId))];
    assert FeedbackId(f) in Keys([f], FeedbackId);
    assert Bound(fields, f.id)[0] == ("EventID", SqlInt(eventId));
    UpdateWritesSuppliedColumns(f, fields);
  }

  // ---- deleteFeedBack ----

  /** What `deleteFeedBack` returns or rethrows. No table references
      FEEDBACK, so the ORA-02292 branch never fires: a reachable store
      always deletes. */
  function DeleteFeedbackResult(reachable: bool, feedbackId: int, feedback: seq<FeedbackRow>): (r: DeleteOutcome)
    ensures !r.Refused?
    ensures r.Deleted? <==> reachable
  {
    if !reachable then Threw(Unreachable)
    else Deleted(if feedbackId in Keys(feedback, FeedbackId) then 1 else 0)
  }

  method DeleteFeedback(db: Database, reachable: bool, feedbackId: int) returns (r: DeleteOutcome)
    requires db.Valid()
    modifies db`feedback
    ensures db.Valid()
    ensures r == DeleteFeedbackResult(reachable, feedbackId, old(db.feedback))
    ensures r.Deleted? ==> db.feedback == Filter(old(db.feedback), OtherFeedback(feedbackId)) &&
                           Keys(db.feedback, FeedbackId) == Keys(old(db.feedback), FeedbackId) - {feedbackId}
    ensures !r.Deleted? ==> db.feedback == old(db.feedback)
  {
    if !reachable {
      return Threw(Unreachable);
    }
    var n := Count(db.feedback, FeedbackIs(feedbackId));
    CountByKeyAtMostOne(db.feedback, FeedbackId, feedbackId, FeedbackIs(feedbackId));
    db.DeleteFeedbackRow(feedbackId);
    r := Deleted(n);
  }

  /** rowsAffected is 1 exactly when a row had the id. */
  lemma DeletedCountsTheRow(feedbackId: int, feedback: seq<FeedbackRow>)
    ensures DeleteFeedbackResult(true, feedbackId, feedback) == Deleted(1) <==>
      exists f :: f in feedback && f.id == feedbackId
  {
    if exists f :: f in feedback && f.id == feedbackId {
      var f :| f in feedback && f.id == feedbackId;
      assert FeedbackId(f) in Keys(feedback, FeedbackId);
    }
  }
}
