/** The ORGANIZER model: the full scan, the INSERT of one organizer, the
    UPDATE of the supplied columns of one organizer, and the DELETE that
    turns a dependents violation into a refusal. None of them validates
    anything itself; every rejection comes from the store. */
module Organizers {
  import opened Rows
  import opened Store

  // ---- getAllOrganizers ----

  /** `SELECT * FROM ORGANIZER`, or `[]` when the store cannot be reached. */
  function AllOrganizers(organizers: seq<OrganizerRow>, reachable: bool): seq<OrganizerRow> {
    Scan(organizers, reachable)
  }

  /** A caller cannot tell a failed connection from an empty table. */
  lemma FailureReadsAsNoOrganizers(organizers: seq<OrganizerRow>)
    ensures AllOrganizers(organizers, false) == AllOrganizers([], true) == []
    ensures AllOrganizers(organizers, true) == organizers
  {
  }

  // ---- addOrganizer ----

  /** The four properties of the request body the INSERT binds; `None`
      stands for a missing property or `null`. */
  datatype OrganizerInput = OrganizerInput(id: Option<int>, name: Option<string>, email: Option<string>, phone: Option<string>)

  /** The row the INSERT writes; empty strings are stored as NULL. */
  function NewOrganizerRow(x: OrganizerInput): (o: OrganizerRow)
    requires x.id.Some? && Text(x.email).Some?
    ensures o.id == x.id.value && o.name == Text(x.name) && o.email == x.email.value && o.phone == Text(x.phone)
  {
    OrganizerRow(x.id.value, Text(x.name), x.email.value, Text(x.phone))
  }

  /** What `addOrganizer` returns: the INSERT's outcome, any store error
      caught and returned rather than thrown. */
  function AddOrganizerResult(reachable: bool, x: OrganizerInput, organizers: seq<OrganizerRow>): AddOutcome {
    if !reachable then NotAdded(Unreachable)
    else if x.id.None? || Text(x.email).None? then NotAdded(NotNullViolation)
    else if x.id.value in Keys(organizers, OrganizerId) then NotAdded(UniqueViolation)
    else if NamePhoneKey(NewOrganizerRow(x)) in Keys(organizers, NamePhoneKey) then NotAdded(UniqueViolation)
    else Added
  }

  method AddOrganizer(db: Database, reachable: bool, x: OrganizerInput) returns (outcome: AddOutcome)
    requires db.Valid()
    modifies db`organizers
    ensures db.Valid()
    ensures outcome == AddOrganizerResult(reachable, x, old(db.organizers))
    ensures db.organizers == if outcome.Added? then old(db.organizers) + [NewOrganizerRow(x)] else old(db.organizers)
  {
    if !reachable {
      return NotAdded(Unreachable);
    }
    if x.id.None? || Text(x.email).None? {
      return NotAdded(NotNullViolation);
    }
    var s := db.InsertOrganizer(NewOrganizerRow(x));
    outcome := if s.Done? then Added else NotAdded(s.error);
  }

  /** An organizer is added exactly when the store is reachable, the id and
      a non-empty email are given, and neither the id nor the (name, phone)
      pair is taken. */
  lemma AddOrganizerSucceedsIff(reachable: bool, x: OrganizerInput, organizers: seq<OrganizerRow>)
    ensures AddOrganizerResult(reachable, x, organizers).Added? <==>
      && reachable && x.id.Some? && x.email.Some? && x.email.value != ""
      && (forall o :: o in organizers ==> o.id != x.id.value)
      && (forall o :: o in organizers ==> NamePhoneKey(o) != NamePhoneKey(NewOrganizerRow(x)))
  {
    if reachable && x.id.Some? && Text(x.email).Some? {
      if exists o :: o in organizers && o.id == x.id.value {
        var o :| o in organizers && o.id == x.id.value;
        assert OrganizerId(o) in Keys(organizers, OrganizerId);
      }
      if exists o :: o in organizers && NamePhoneKey(o) == NamePhoneKey(NewOrganizerRow(x)) {
        var o :| o in organizers && NamePhoneKey(o) == NamePhoneKey(NewOrganizerRow(x));
        assert NamePhoneKey(o) in Keys(organizers, NamePhoneKey);
      }
    }
  }

  /** Two organizers without a name and without a phone never clash on the
      UNIQUE (name, phone) constraint: only the id decides. */
  lemma UnnamedOrganizersNeverClash(organizers: seq<OrganizerRow>, id: int, email: string)
    requires Unique(organizers, OrganizerId)
    requires id !in Keys(organizers, OrganizerId) && email != ""
    ensures AddOrganizerResult(true, OrganizerInput(Some(id), None, Some(email), Some("")), organizers) == Added
  {
  }

  // ---- updateOrganizer ----

  function ColumnTypeOf(name: string): Option<ColumnType> {
    if name == "OrganizerID" then Some(IntColumn)
    else if name == "OrganizerName" || name == "OrganizerEmail" || name == "OrganizerPhoneNo" then Some(TextColumn)
    else None
  }

  /** The value an ORGANIZER column holds. */
  function Column(o: OrganizerRow, name: string): SqlValue {
    if name == "OrganizerID" then SqlInt(o.id)
    else if name == "OrganizerName" then TextValue(o.name)
    else if name == "OrganizerEmail" then SqlText(o.email)
    else if name == "OrganizerPhoneNo" then TextValue(o.phone)
    else SqlNull
  }

  /** `name = :name` on one row. */
  function Assign(o: OrganizerRow, name: string, v: SqlValue): OrganizerRow {
    if name == "OrganizerID" && v.SqlInt? then o.(id := v.i)
    else if name == "OrganizerName" then o.(name := OptionalText(v))
    else if name == "OrganizerEmail" && v.SqlText? then o.(email := v.t)
    else if name == "OrganizerPhoneNo" then o.(phone := OptionalText(v))
    else o
  }

  /** A known column bound to a value of another type. */
  predicate Mismatch(name: string, v: SqlValue) {
    ColumnTypeOf(name).Some? && !Fits(ColumnTypeOf(name).value, v)
  }

  /** A value the column takes: the right type, and not NULL for the key or
      the email. */
  predicate Assignable(name: string, v: SqlValue) {
    && ColumnTypeOf(name).Some? && Fits(ColumnTypeOf(name).value, v)
    && !((name == "OrganizerID" || name == "OrganizerEmail") && NullIfEmpty(v) == SqlNull)
  }

  /** Assigning a column stores the value in that column and nowhere else. */
  lemma AssignWritesOneColumn()
    ensures forall o, k, v, k' :: Assignable(k, v) ==>
      Column(Assign(o, k, v), k') == if k' == k then NullIfEmpty(v) else Column(o, k')
  {
  }

  /** `{ ...updateFields, OrganizerID: organizerID }`. */
  function Bound(fields: Assignments, organizerId: int): Assignments {
    Rebind(fields, map["OrganizerID" := SqlInt(organizerId)])
  }

  /** Whether another organizer already has the (name, phone) pair. */
  predicate PairTaken(organizers: seq<OrganizerRow>, organizerId: int, row: OrganizerRow) {
    exists j :: 0 <= j < |organizers| && organizers[j].id != organizerId && NamePhoneKey(organizers[j]) == NamePhoneKey(row)
  }

  /** What `updateOrganizer` returns or rethrows: rowsAffected, or the
      store's error. There is no allow-list and no empty check: an empty
      SET list and an unknown column fail when the statement is parsed,
      whether or not a row matches. */
  function UpdateOrganizerResult(reachable: bool, organizerId: int, fields: Assignments, organizers: seq<OrganizerRow>): Result<nat> {
    if !reachable then Err(Unreachable)
    else if fields == [] then Err(MissingExpression)
    else if exists i :: 0 <= i < |fields| && ColumnTypeOf(fields[i].0).None? then Err(InvalidIdentifier)
    else if organizerId !in Keys(organizers, OrganizerId) then Ok(0)
    else UpdateRowResult(organizers[IndexOf(organizers, OrganizerId, organizerId)], fields, organizers)
  }

  /** The UPDATE of the one matching row: the types of the bound values,
      NOT NULL, then the UNIQUE (name, phone) constraint against the other
      rows. */
  function UpdateRowResult(o: OrganizerRow, fields: Assignments, organizers: seq<OrganizerRow>): Result<nat> {
    var bound := Bound(fields, o.id);
    if exists i :: 0 <= i < |bound| && Mismatch(bound[i].0, bound[i].1) then Err(InconsistentDatatypes)
    else if exists i :: 0 <= i < |bound| && !Assignable(bound[i].0, bound[i].1) then Err(NotNullViolation)
    else if PairTaken(organizers, o.id, SetAll(o, bound, Assign)) then Err(UniqueViolation)
    else Ok(1)
  }

  /** The row after the SET list keeps its id, holds each supplied value in
      its column, and keeps every other column. */
  lemma UpdateWritesSuppliedColumns(o: OrganizerRow, fields: Assignments)
    requires DistinctColumns(fields)
    requires forall i :: 0 <= i < |fields| ==> Assignable(Bound(fields, o.id)[i].0, Bound(fields, o.id)[i].1)
    ensures SetAll(o, Bound(fields, o.id), Assign).id == o.id
    ensures forall i :: 0 <= i < |fields| && fields[i].0 != "OrganizerID" ==>
      Column(SetAll(o, Bound(fields, o.id), Assign), fields[i].0) == NullIfEmpty(fields[i].1)
    ensures forall k :: (forall i :: 0 <= i < |fields| ==> fields[i].0 != k) ==>
      Column(SetAll(o, Bound(fields, o.id), Assign), k) == Column(o, k)
  {
    var keys := map["OrganizerID" := SqlInt(o.id)];
    assert Bound(fields, o.id) == Rebind(fields, keys);
    AssignWritesOneColumn();
    SetAllRebound(o, fields, keys, Assign, Column, Assignable);
    assert Column(SetAll(o, Bound(fields, o.id), Assign), "OrganizerID") == SqlInt(o.id);
  }

  method UpdateOrganizer(db: Database, reachable: bool, organizerId: int, fields: Assignments) returns (r: Result<nat>)
    requires db.Valid() && DistinctColumns(fields)
    modifies db`organizers
    ensures db.Valid()
    ensures r == UpdateOrganizerResult(reachable, organizerId, fields, old(db.organizers))
    ensures r == Ok(1) ==>
      exists i :: 0 <= i < |old(db.organizers)| && old(db.organizers)[i].id == organizerId &&
                  db.organizers == old(db.organizers)[i := SetAll(old(db.organizers)[i], Bound(fields, organizerId), Assign)]
    ensures r != Ok(1) ==> db.organizers == old(db.organizers)
  {
    if !reachable {
      return Err(Unreachable);
    }
    if fields == [] {
      return Err(MissingExpression);
    }
    if exists i :: 0 <= i < |fields| && ColumnTypeOf(fields[i].0).None? {
      return Err(InvalidIdentifier);
    }
    if organizerId !in Keys(db.organizers, OrganizerId) {
      return Ok(0);
    }
    var i := IndexOf(db.organizers, OrganizerId, organizerId);
    r := UpdateRow(db, i, fields);
  }

  /** The SET list applied to the row at `i`, when the store accepts it. */
  method UpdateRow(db: Database, i: int, fields: Assignments) returns (r: Result<nat>)
    requires db.Valid() && 0 <= i < |db.organizers| && DistinctColumns(fields)
    modifies db`organizers
    ensures db.Valid()
    ensures r == UpdateRowResult(old(db.organizers)[i], fields, old(db.organizers))
    ensures db.organizers == if r == Ok(1) then old(db.organizers)[i := SetAll(old(db.organizers)[i], Bound(fields, old(db.organizers)[i].id), Assign)]
                             else old(db.organizers)
  {
    var id := db.organizers[i].id;
    var bound := Bound(fields, id);
    if exists j :: 0 <= j < |bound| && Mismatch(bound[j].0, bound[j].1) {
      return Err(InconsistentDatatypes);
    }
    if exists j :: 0 <= j < |bound| && !Assignable(bound[j].0, bound[j].1) {
      return Err(NotNullViolation);
    }
    var row := SetAll(db.organizers[i], bound, Assign);
    if PairTaken(db.organizers, id, row) {
      return Err(UniqueViolation);
    }
    UpdateWritesSuppliedColumns(db.organizers[i], fields);
    forall j | 0 <= j < |db.organizers| && j != i ensures NamePhoneKey(db.organizers[j]) != NamePhoneKey(row) {
      assert OrganizerId(db.organizers[j]) != OrganizerId(db.organizers[i]);
    }
    db.WriteOrganizer(i, row);
    r := Ok(1);
  }

  /** Renaming an organizer to the (name, phone) pair another organizer
      holds breaks the UNIQUE constraint and is refused. */
  lemma TakenPairRefused(o: OrganizerRow, p: OrganizerRow, organizers: seq<OrganizerRow>, name: string, phone: string)
    requires p in organizers && p.id != o.id && p.name == Some(name) && p.phone == Some(phone)
    requires name != "" && phone != ""
    ensures UpdateRowResult(o, [("OrganizerName", SqlText(name)), ("OrganizerPhoneNo", SqlText(phone))], organizers) ==
      Err(UniqueViolation)
  {
    var fields: Assignments := [("OrganizerName", SqlText(name)), ("OrganizerPhoneNo", SqlText(phone))];
    var bound := Bound(fields, o.id);
    assert bound == fields;
    UpdateWritesSuppliedColumns(o, fields);
    var o' := SetAll(o, bound, Assign);
    assert Column(o', "OrganizerName") == SqlText(name) && Column(o', "OrganizerPhoneNo") == SqlText(phone);
    var j :| 0 <= j < |organizers| && organizers[j] == p;
    assert NamePhoneKey(organizers[j]) == NamePhoneKey(o');
  }

  /** An empty update reaches the store and fails there, even for an id no
      row has. */
  lemma EmptyUpdateFailsInStore(organizerId: int, organizers: seq<OrganizerRow>)
    ensures UpdateOrganizerResult(true, organizerId, [], organizers) == Err(MissingExpression)
  {
  }

  /** An update of known columns to values they take, for an id no row
      has, affects no row. */
  lemma UnknownOrganizerUpdatesNothing(organizerId: int, fields: Assignments, organizers: seq<OrganizerRow>)
    requires fields != [] && forall i :: 0 <= i < |fields| ==> ColumnTypeOf(fields[i].0).Some?
    requires forall o :: o in organizers ==> o.id != organizerId
    ensures UpdateOrganizerResult(true, organizerId, fields, organizers) == Ok(0)
  {
  }

  // ---- deleteOrganizer ----

  /** Whether an EVENT or TEAM_MEMBER row references the organizer. */
  predicate HasOrganizerDependents(db: Database, organizerId: int)
    reads db
  {
    || (exists e :: e in db.events && e.organizerId == organizerId)
    || (exists m :: m in db.teamMembers && m.organizerId == Some(organizerId))
  }

  /** `deleteOrganizer`: ORA-02292 becomes `{success: false, message}` with
      the organizer kept; every other error is rethrown; otherwise the row
      with the id, and only it, is gone. */
  method DeleteOrganizer(db: Database, reachable: bool, organizerId: int) returns (r: DeleteOutcome)
    requires db.Valid()
    modifies db`organizers
    ensures db.Valid()
    ensures !reachable ==> r == Threw(Unreachable)
    ensures reachable && HasOrganizerDependents(db, organizerId) ==> r == Refused(ChildRecordFound)
    ensures reachable && !HasOrganizerDependents(db, organizerId) ==>
      r == Deleted(if organizerId in Keys(old(db.organizers), OrganizerId) then 1 else 0)
    ensures r.Deleted? ==> db.organizers == Filter(old(db.organizers), OtherOrganizer(organizerId)) &&
                           Keys(db.organizers, OrganizerId) == Keys(old(db.organizers), OrganizerId) - {organizerId}
    ensures !r.Deleted? ==> db.organizers == old(db.organizers)
  {
    if !reachable {
      return Threw(Unreachable);
    }
    if HasOrganizerDependents(db, organizerId) {
      return Refused(ChildRecordFound);
    }
    var n := Count(db.organizers, OrganizerIs(organizerId));
    CountByKeyAtMostOne(db.organizers, OrganizerId, organizerId, OrganizerIs(organizerId));
    db.DeleteOrganizerRow(organizerId);
    r := Deleted(n);
  }

  /** An organizer some event references exists, so the refusal keeps a
      row that is really there. */
  lemma ReferencedOrganizerExists(db: Database, organizerId: int)
    requires db.Valid() && HasOrganizerDependents(db, organizerId)
    ensures organizerId in Keys(db.organizers, OrganizerId)
  {
    if e :| e in db.events && e.organizerId == organizerId {
      assert OrganizedBy(Keys(db.organizers, OrganizerId))(e);
    } else {
      var m :| m in db.teamMembers && m.organizerId == Some(organizerId);
      assert MemberOrganizedBy(Keys(db.organizers, OrganizerId))(m);
    }
  }
}
