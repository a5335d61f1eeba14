/** The TEAM_MEMBER model: the full scan, the INSERT of one member, and the
    UPDATE and DELETE of the member with a given (MemberName,
    MemberPhoneNo) key. Each of them touches TEAM_MEMBER only; the role
    tables SPEAKER, PHOTOGRAPHER and VOLUNTEER reference it. */
module TeamMembers {
  import opened Rows
  import opened Store

  // ---- getAllTeamMembers ----

  /** `SELECT * FROM TEAM_MEMBER`, or `[]` when the store cannot be
      reached. */
  function AllTeamMembers(members: seq<TeamMemberRow>, reachable: bool): seq<TeamMemberRow> {
    Scan(members, reachable)
  }

  /** A caller cannot tell a failed connection from an empty table. */
  lemma FailureReadsAsNoMembers(members: seq<TeamMemberRow>)
    ensures AllTeamMembers(members, false) == AllTeamMembers([], true) == []
    ensures AllTeamMembers(members, true) == members
  {
  }

  // ---- addTeamMember ----

  /** The five properties of the request body the INSERT binds, in column
      order; `None` stands for a missing property or `null`. */
  datatype TeamMemberInput = TeamMemberInput(name: Option<string>, phone: Option<string>, organizerId: Option<int>,
                                             staffEmail: Option<string>, payRate: Option<int>)

  /** The row the INSERT writes; empty strings are stored as NULL. */
  function NewMemberRow(x: TeamMemberInput): (m: TeamMemberRow)
    requires Text(x.name).Some? && Text(x.phone).Some?
    ensures m.key == MemberKey(x.name.value, x.phone.value)
    ensures m.organizerId == x.organizerId && m.staffEmail == Text(x.staffEmail) && m.payRate == x.payRate
  {
    TeamMemberRow(MemberKey(x.name.value, x.phone.value), x.organizerId, Text(x.staffEmail), x.payRate)
  }

  /** What `addTeamMember` returns: the INSERT's outcome, any store error
      caught and returned rather than thrown. Both key columns are NOT
      NULL as parts of the PRIMARY KEY. */
  function AddTeamMemberResult(reachable: bool, x: TeamMemberInput, members: seq<TeamMemberRow>, organizerIds: set<int>): AddOutcome {
    if !reachable then NotAdded(Unreachable)
    else if Text(x.name).None? || Text(x.phone).None? then NotAdded(NotNullViolation)
    else if MemberKey(x.name.value, x.phone.value) in Keys(members, MemberKeyOf) then NotAdded(UniqueViolation)
    else if x.organizerId.Some? && x.organizerId.value !in organizerIds then NotAdded(ParentKeyNotFound)
    else Added
  }

  method AddTeamMember(db: Database, reachable: bool, x: TeamMemberInput) returns (outcome: AddOutcome)
    requires db.Valid()
    modifies db`teamMembers
    ensures db.Valid()
    ensures outcome == AddTeamMemberResult(reachable, x, old(db.teamMembers), Keys(db.organizers, OrganizerId))
    ensures db.teamMembers == if outcome.Added? then old(db.teamMembers) + [NewMemberRow(x)] else old(db.teamMembers)
  {
    if !reachable {
      return NotAdded(Unreachable);
    }
    if Text(x.name).None? || Text(x.phone).None? {
      return NotAdded(NotNullViolation);
    }
    var s := db.InsertTeamMember(NewMemberRow(x));
    outcome := if s.Done? then Added else NotAdded(s.error);
  }

  /** The same name with another phone number is another member. */
  lemma SameNameOtherPhoneAdded(m: TeamMemberRow, phone: string, members: seq<TeamMemberRow>)
    requires Unique(members, MemberKeyOf) && m in members && phone != "" && phone != m.key.phone
    requires forall n :: n in members ==> n.key.phone != phone
    ensures AddTeamMemberResult(true, TeamMemberInput(Some(m.key.name), Some(phone), None, None, None), members, {}) ==
      if m.key.name == "" then NotAdded(NotNullViolation) else Added
  {
  }

  // ---- updateTeamMember ----

  function ColumnTypeOf(name: string): Option<ColumnType> {
    if name == "MemberName" || name == "MemberPhoneNo" || name == "StaffEmail" then Some(TextColumn)
    else if name == "OrganizerID" || name == "PayRate" then Some(IntColumn)
    else None
  }

  /** The value a TEAM_MEMBER column holds. */
  function Column(m: TeamMemberRow, name: string): SqlValue {
    if name == "MemberName" then SqlText(m.key.name)
    else if name == "MemberPhoneNo" then SqlText(m.key.phone)
    else if name == "OrganizerID" then IntValue(m.organizerId)
    else if name == "StaffEmail" then TextValue(m.staffEmail)
    else if name == "PayRate" then IntValue(m.payRate)
    else SqlNull
  }

  /** `name = :name` on one row. */
  function Assign(m: TeamMemberRow, name: string, v: SqlValue): TeamMemberRow {
    if name == "MemberName" && v.SqlText? then m.(key := m.key.(name := v.t))
    else if name == "MemberPhoneNo" && v.SqlText? then m.(key := m.key.(phone := v.t))
    else if name == "OrganizerID" then m.(organizerId := OptionalInt(v))
    else if name == "StaffEmail" then m.(staffEmail := OptionalText(v))
    else if name == "PayRate" then m.(payRate := OptionalInt(v))
    else m
  }

  /** A known column bound to a value of another type. */
  predicate Mismatch(name: string, v: SqlValue) {
    ColumnTypeOf(name).Some? && !Fits(ColumnTypeOf(name).value, v)
  }

  /** A value the column takes: the right type, and not NULL for a key
      column. */
  predicate Assignable(name: string, v: SqlValue) {
    && ColumnTypeOf(name).Some? && Fits(ColumnTypeOf(name).value, v)
    && !((name == "MemberName" || name == "MemberPhoneNo") && NullIfEmpty(v) == SqlNull)
  }

  /** Assigning a column stores the value in that column and nowhere else. */
  lemma AssignWritesOneColumn()
    ensures forall m, k, v, k' :: Assignable(k, v) ==>
      Column(Assign(m, k, v), k') == if k' == k then NullIfEmpty(v) else Column(m, k')
  {
  }

  /** `{ ...updateFields, MemberName: memberName, MemberPhoneNo: memberPhoneNo }`. */
  function Bound(fields: Assignments, key: MemberKey): Assignments {
    Rebind(fields, map["MemberName" := SqlText(key.name), "MemberPhoneNo" := SqlText(key.phone)])
  }

  /** `MemberName = :MemberName AND MemberPhoneNo = :MemberPhoneNo`: both
      parts equal; an empty name or phone is bound as NULL, which equals
      nothing. */
  predicate Matches(m: TeamMemberRow, name: string, phone: string) {
    name != "" && phone != "" && m.key == MemberKey(name, phone)
  }

  /** What `updateTeamMember` returns or rethrows: rowsAffected, or the
      store's error. An empty SET list and an unknown column fail when the
      statement is parsed, whether or not a row matches. */
  function UpdateTeamMemberResult(reachable: bool, name: string, phone: string, fields: Assignments,
                                  members: seq<TeamMemberRow>, organizerIds: set<int>): Result<nat> {
    if !reachable then Err(Unreachable)
    else if fields == [] then Err(MissingExpression)
    else if exists i :: 0 <= i < |fields| && ColumnTypeOf(fields[i].0).None? then Err(InvalidIdentifier)
    else if name == "" || phone == "" || MemberKey(name, phone) !in Keys(members, MemberKeyOf) then Ok(0)
    else UpdateRowResult(members[IndexOf(members, MemberKeyOf, MemberKey(name, phone))], fields, organizerIds)
  }

  /** The UPDATE of the one matching row: the types of the bound values,
      NOT NULL, then the FOREIGN KEY on OrganizerID. */
  function UpdateRowResult(m: TeamMemberRow, fields: Assignments, organizerIds: set<int>): Result<nat> {
    var bound := Bound(fields, m.key);
    if exists i :: 0 <= i < |bound| && Mismatch(bound[i].0, bound[i].1) then Err(InconsistentDatatypes)
    else if exists i :: 0 <= i < |bound| && !Assignable(bound[i].0, bound[i].1) then Err(NotNullViolation)
    else
      var row := SetAll(m, bound, Assign);
      if row.organizerId.Some? && row.organizerId.value !in organizerIds then Err(ParentKeyNotFound)
      else Ok(1)
  }

  /** The row after the SET list keeps its key, whatever the body says
      about MemberName and MemberPhoneNo; it holds each other supplied
      value in its column and keeps every other column. */
  lemma UpdateWritesSuppliedColumns(m: TeamMemberRow, fields: Assignments)
    requires DistinctColumns(fields)
    requires forall i :: 0 <= i < |fields| ==> Assignable(Bound(fields, m.key)[i].0, Bound(fields, m.key)[i].1)
    ensures SetAll(m, Bound(fields, m.key), Assign).key == m.key
    ensures forall i :: 0 <= i < |fields| && fields[i].0 != "MemberName" && fields[i].0 != "MemberPhoneNo" ==>
      Column(SetAll(m, Bound(fields, m.key), Assign), fields[i].0) == NullIfEmpty(fields[i].1)
    ensures forall k :: (forall i :: 0 <= i < |fields| ==> fields[i].0 != k) ==>
      Column(SetAll(m, Bound(fields, m.key), Assign), k) == Column(m, k)
  {
    var keys := map["MemberName" := SqlText(m.key.name), "MemberPhoneNo" := SqlText(m.key.phone)];
    assert Bound(fields, m.key) == Rebind(fields, keys);
    AssignWritesOneColumn();
    SetAllRebound(m, fields, keys, Assign, Column, Assignable);
    var m' := SetAll(m, Bound(fields, m.key), Assign);
    assert Column(m', "MemberName") == SqlText(m.key.name);
    assert Column(m', "MemberPhoneNo") == SqlText(m.key.phone);
  }

  method UpdateTeamMember(db: Database, reachable: bool, name: string, phone: string, fields: Assignments) returns (r: Result<nat>)
    requires db.Valid() && DistinctColumns(fields)
    modifies db`teamMembers
    ensures db.Valid()
    ensures r == UpdateTeamMemberResult(reachable, name, phone, fields, old(db.teamMembers), Keys(db.organizers, OrganizerId))
    ensures r == Ok(1) ==>
      exists i :: 0 <= i < |old(db.teamMembers)| && Matches(old(db.teamMembers)[i], name, phone) &&
                  db.teamMembers == old(db.teamMembers)[i := SetAll(old(db.teamMembers)[i], Bound(fields, MemberKey(name, phone)), Assign)]
    ensures r != Ok(1) ==> db.teamMembers == old(db.teamMembers)
  {
    if !reachable {
      return Err(Unreachable);
    }
    if fields == [] {
      return Err(MissingExpression);
    }
    if exists i :: 0 <= i < |fields| && ColumnTypeOf(fields[i].0).None? {
      return Err(InvalidIdentifier);
    }
    if name == "" || phone == "" || MemberKey(name, phone) !in Keys(db.teamMembers, MemberKeyOf) {
      return Ok(0);
    }
    var i := IndexOf(db.teamMembers, MemberKeyOf, MemberKey(name, phone));
    r := UpdateRow(db, i, fields);
  }

  /** The SET list applied to the row at `i`, when the store accepts it. */
  method UpdateRow(db: Database, i: int, fields: Assignments) returns (r: Result<nat>)
    requires db.Valid() && 0 <= i < |db.teamMembers| && DistinctColumns(fields)
    modifies db`teamMembers
    ensures db.Valid()
    ensures r == UpdateRowResult(old(db.teamMembers)[i], fields, Keys(db.organizers, OrganizerId))
    ensures db.teamMembers == if r == Ok(1) then old(db.teamMembers)[i := SetAll(old(db.teamMembers)[i], Bound(fields, old(db.teamMembers)[i].key), Assign)]
                              else old(db.teamMembers)
  {
    var bound := Bound(fields, db.teamMembers[i].key);
    if exists j :: 0 <= j < |bound| && Mismatch(bound[j].0, bound[j].1) {
      return Err(InconsistentDatatypes);
    }
    if exists j :: 0 <= j < |bound| && !Assignable(bound[j].0, bound[j].1) {
      return Err(NotNullViolation);
    }
    var row := SetAll(db.teamMembers[i], bound, Assign);
    if row.organizerId.Some? && row.organizerId.value !in Keys(db.organizers, OrganizerId) {
      return Err(ParentKeyNotFound);
    }
    UpdateWritesSuppliedColumns(db.teamMembers[i], fields);
    db.WriteTeamMember(i, row);
    r := Ok(1);
  }

  /** A body that names new key values is accepted and still changes
      neither key column. */
  lemma KeyColumnsCannotChange(m: TeamMemberRow, newName: string, newPhone: string)
    requires m.key.name != "" && m.key.phone != "" && m.organizerId == None
    requires newName != "" && newPhone != ""
    ensures UpdateRowResult(m, [("MemberName", SqlText(newName)), ("MemberPhoneNo", SqlText(newPhone))], {}) == Ok(1)
    ensures SetAll(m, Bound([("MemberName", SqlText(newName)), ("MemberPhoneNo", SqlText(newPhone))], m.key), Assign).key == m.key
  {
    var fields: Assignments := [("MemberName", SqlText(newName)), ("MemberPhoneNo", SqlText(newPhone))];
    var bound := Bound(fields, m.key);
    assert bound == [("MemberName", SqlText(m.key.name)), ("MemberPhoneNo", SqlText(m.key.phone))];
    UpdateWritesSuppliedColumns(m, fields);
    assert Column(SetAll(m, bound, Assign), "OrganizerID") == Column(m, "OrganizerID");
  }

  // ---- deleteTeamMember ----

  /** Whether a SPEAKER, PHOTOGRAPHER or VOLUNTEER row references the
      member. */
  predicate HasRoles(db: Database, key: MemberKey)
    reads db
  {
    || (exists r :: r in db.speakers && r.key == key)
    || (exists r :: r in db.photographers && r.key == key)
    || (exists r :: r in db.volunteers && r.key == key)
  }

  /** `deleteTeamMember`: every error, a role row's ORA-02292 included,
      becomes `{success: false, message}` with the member kept; otherwise
      exactly the rows matching both key parts are gone. */
  method DeleteTeamMember(db: Database, reachable: bool, name: string, phone: string) returns (r: DeleteOutcome)
    requires db.Valid()
    modifies db`teamMembers
    ensures db.Valid()
    ensures !r.Threw?
    ensures !reachable ==> r == Refused(Unreachable)
    ensures reachable && (name == "" || phone == "") ==> r == Deleted(0)
    ensures reachable && name != "" && phone != "" && HasRoles(db, MemberKey(name, phone)) ==> r == Refused(ChildRecordFound)
    ensures reachable && name != "" && phone != "" && !HasRoles(db, MemberKey(name, phone)) ==>
      r == Deleted(if MemberKey(name, phone) in Keys(old(db.teamMembers), MemberKeyOf) then 1 else 0)
    ensures forall m :: m in db.teamMembers <==> m in old(db.teamMembers) && !(r.Deleted? && Matches(m, name, phone))
    ensures r.Refused? ==> db.teamMembers == old(db.teamMembers)
  {
    if !reachable {
      return Refused(Unreachable);
    }
    if name == "" || phone == "" {
      return Deleted(0);
    }
    var key := MemberKey(name, phone);
    if HasRoles(db, key) {
      return Refused(ChildRecordFound);
    }
    var n := Count(db.teamMembers, MemberIs(key));
    CountByKeyAtMostOne(db.teamMembers, MemberKeyOf, key, MemberIs(key));
    db.DeleteTeamMemberRow(key);
    r := Deleted(n);
  }

  /** A role row shares its key with exactly one TEAM_MEMBER row, so that
      member cannot be deleted while the role row exists. */
  lemma RoleHasExactlyOneMember(db: Database, r: RoleRow)
    requires db.Valid() && (r in db.speakers || r in db.photographers || r in db.volunteers)
    ensures Count(db.teamMembers, MemberIs(r.key)) == 1
  {
    assert RoleOf(Keys(db.teamMembers, MemberKeyOf))(r);
    CountByKeyAtMostOne(db.teamMembers, MemberKeyOf, r.key, MemberIs(r.key));
  }
}
