/** The relational store the models talk to: the rows of the fourteen
    tables of the schema, the constraints their DDL declares, and INSERT as
    the store performs it (NOT NULL, then PRIMARY KEY and UNIQUE, then
    FOREIGN KEY). */
module Store {
  import opened Rows

  datatype Option<T> = None | Some(value: T)

  /** The errors the store raises. */
  datatype StoreError =
    | Unreachable            // no connection could be opened
    | UniqueViolation        // ORA-00001: a PRIMARY KEY or UNIQUE clash
    | NotNullViolation       // ORA-01400 / ORA-01407: NULL into a NOT NULL column
    | ParentKeyNotFound      // ORA-02291: a FOREIGN KEY names a missing row
    | ChildRecordFound       // ORA-02292: a deleted row is still referenced
    | InvalidIdentifier      // ORA-00904: an unknown column name
    | MissingExpression      // ORA-00936: an UPDATE with an empty SET list
    | DuplicateColumn        // ORA-00957: a column assigned twice
    | InconsistentDatatypes  // ORA-00932: a value of the wrong type for its column
    | InvalidDateValue       // ORA-01841/01843/01847/01861: text TO_TIMESTAMP cannot read as a date

  datatype Status = Done | Failed(error: StoreError)

  datatype Result<T> = Ok(value: T) | Err(error: StoreError)

  /** A value bound to a statement parameter. */
  datatype SqlValue = SqlNull | SqlInt(i: int) | SqlText(t: string)

  /** Oracle keeps the empty string as NULL. */
  function Text(s: Option<string>): (r: Option<string>)
    ensures r.Some? <==> s.Some? && s.value != ""
    ensures r.Some? ==> r == s
  {
    if s == Some("") then None else s
  }

  /** The SQL type of a column. */
  datatype ColumnType = IntColumn | TextColumn

  /** A bound value the column can hold without conversion. */
  predicate Fits(t: ColumnType, v: SqlValue) {
    v.SqlNull? || (t == IntColumn && v.SqlInt?) || (t == TextColumn && v.SqlText?)
  }

  /** The value a column stores for a bound value: Oracle keeps the empty
      string as NULL. */
  function NullIfEmpty(v: SqlValue): (r: SqlValue)
    ensures r == SqlNull <==> v == SqlNull || v == SqlText("")
    ensures r != SqlNull ==> r == v
  {
    if v == SqlText("") then SqlNull else v
  }

  function OptionalText(v: SqlValue): Option<string> {
    if v.SqlText? && v.t != "" then Some(v.t) else None
  }

  function OptionalInt(v: SqlValue): Option<int> {
    if v.SqlInt? then Some(v.i) else None
  }

  function TextValue(s: Option<string>): SqlValue {
    if s.Some? then SqlText(s.value) else SqlNull
  }

  function IntValue(i: Option<int>): SqlValue {
    if i.Some? then SqlInt(i.value) else SqlNull
  }

  // ---- UPDATE ... SET k = :k, ... ----

  /** The properties of an update body, in key order, with the values bound
      to them. */
  type Assignments = seq<(string, SqlValue)>

  /** An object has each property once. */
  predicate DistinctColumns(fields: Assignments) {
    forall i, j :: 0 <= i < j < |fields| ==> fields[i].0 != fields[j].0
  }

  /** `{ ...updateFields, K: k }`: a key bind spread after the body replaces
      the value the body gave that property. */
  function Rebind(fields: Assignments, keys: map<string, SqlValue>): (r: Assignments)
    ensures |r| == |fields|
    ensures forall i :: 0 <= i < |fields| ==>
      r[i].0 == fields[i].0 && r[i].1 == if fields[i].0 in keys then keys[fields[i].0] else fields[i].1
  {
    seq(|fields|, i requires 0 <= i < |fields| =>
      (fields[i].0, if fields[i].0 in keys then keys[fields[i].0] else fields[i].1))
  }

  /** The row after the SET list, one assignment after another. */
  function SetAll<R>(row: R, fields: Assignments, assign: (R, string, SqlValue) -> R): R
    decreases |fields|
  {
    if fields == [] then row else SetAll(assign(row, fields[0].0, fields[0].1), fields[1..], assign)
  }

  /** When assigning a column stores the value in that column and nowhere
      else, the SET list writes each named column and leaves the others. */
  lemma {:induction false} SetAllWritesNamedColumns<R>(row: R, fields: Assignments, assign: (R, string, SqlValue) -> R,
                                                       get: (R, string) -> SqlValue, ok: (string, SqlValue) -> bool)
    requires DistinctColumns(fields)
    requires forall i :: 0 <= i < |fields| ==> ok(fields[i].0, fields[i].1)
    requires forall r, k, v, k' :: ok(k, v) ==> get(assign(r, k, v), k') == if k' == k then NullIfEmpty(v) else get(r, k')
    ensures forall i :: 0 <= i < |fields| ==> get(SetAll(row, fields, assign), fields[i].0) == NullIfEmpty(fields[i].1)
    ensures forall k :: (forall i :: 0 <= i < |fields| ==> fields[i].0 != k) ==> get(SetAll(row, fields, assign), k) == get(row, k)
    decreases |fields|
  {
    if fields != [] {
      var tail := fields[1..];
      var row' := assign(row, fields[0].0, fields[0].1);
      assert forall i :: 0 <= i < |tail| ==> tail[i] == fields[i + 1];
      SetAllWritesNamedColumns(row', tail, assign, get, ok);
      forall i | 0 <= i < |fields| ensures get(SetAll(row, fields, assign), fields[i].0) == NullIfEmpty(fields[i].1) {
        if i == 0 {
          assert forall j :: 0 <= j < |tail| ==> tail[j].0 != fields[0].0;
        } else {
          assert fields[i] == tail[i - 1];
        }
      }
      forall k | (forall i :: 0 <= i < |fields| ==> fields[i].0 != k)
        ensures get(SetAll(row, fields, assign), k) == get(row, k)
      {
        assert forall j :: 0 <= j < |tail| ==> tail[j].0 != k;
      }
    }
  }

  /** The SET list after the key binds: a property the binds name gets the
      bound value, every other supplied property its own value, and every
      column not supplied stays. */
  lemma SetAllRebound<R>(row: R, fields: Assignments, keys: map<string, SqlValue>, assign: (R, string, SqlValue) -> R,
                         get: (R, string) -> SqlValue, ok: (string, SqlValue) -> bool)
    requires DistinctColumns(fields)
    requires forall i :: 0 <= i < |fields| ==> ok(Rebind(fields, keys)[i].0, Rebind(fields, keys)[i].1)
    requires forall r, k, v, k' :: ok(k, v) ==> get(assign(r, k, v), k') == if k' == k then NullIfEmpty(v) else get(r, k')
    ensures forall i :: 0 <= i < |fields| && fields[i].0 !in keys ==>
      get(SetAll(row, Rebind(fields, keys), assign), fields[i].0) == NullIfEmpty(fields[i].1)
    ensures forall i :: 0 <= i < |fields| && fields[i].0 in keys ==>
      get(SetAll(row, Rebind(fields, keys), assign), fields[i].0) == NullIfEmpty(keys[fields[i].0]) &&
      ok(fields[i].0, keys[fields[i].0])
    ensures forall k :: (forall i :: 0 <= i < |fields| ==> fields[i].0 != k) ==>
      get(SetAll(row, Rebind(fields, keys), assign), k) == get(row, k)
  {
    var bound := Rebind(fields, keys);
    SetAllWritesNamedColumns(row, bound, assign, get, ok);
  }

  // ---- what the pass-through models return ----

  /** `SELECT * FROM T` behind `.catch(() => [])`: the rows, or an empty
      list when the connection fails. */
  function Scan<R>(rows: seq<R>, reachable: bool): seq<R> {
    if reachable then rows else []
  }

  /** A failed connection reads exactly like an empty table. */
  lemma UnreachableLooksEmpty<R>(rows: seq<R>)
    ensures Scan(rows, false) == Scan([], true)
    ensures Scan(rows, true) == rows
  {
  }

  /** `{success: true, result}` or `{success: false, error}`. */
  datatype AddOutcome = Added | NotAdded(error: StoreError)

  /** A DELETE's rowsAffected; the error the model turns into
      `{success: false, ...}`; or the error it rethrows. */
  datatype DeleteOutcome = Deleted(rowsAffected: nat) | Refused(error: StoreError) | Threw(error: StoreError)

  // ---- rows ----

  datatype OrganizerRow = OrganizerRow(id: int, name: Option<string>, email: string, phone: Option<string>)
  datatype EventRow = EventRow(id: int, organizerId: int, date: Option<string>, expense: int, time: string, name: string)
  datatype MemberKey = MemberKey(name: string, phone: string)
  datatype TeamMemberRow = TeamMemberRow(key: MemberKey, organizerId: Option<int>, staffEmail: Option<string>, payRate: Option<int>)
  /** A SPEAKER (ExperienceLevel), PHOTOGRAPHER (Equipment) or VOLUNTEER (Skill) row. */
  datatype RoleRow = RoleRow(key: MemberKey, detail: string)
  datatype SponsorKey = SponsorKey(name: string, phone: string)
  datatype SponsorRow = SponsorRow(key: SponsorKey, email: string)
  datatype SupportRow = SupportRow(eventId: int, sponsor: SponsorKey, supportType: string, estimatedValue: int)
  datatype FeedbackRow = FeedbackRow(id: int, eventId: Option<int>, rating: Option<int>, comment: Option<string>)
  datatype PhotoRow = PhotoRow(id: int, eventId: int, description: string)
  datatype ParticipantRow = ParticipantRow(id: int, name: string, email: string)
  datatype AttendanceRow = AttendanceRow(eventId: int, participantId: int)
  datatype LocationRow = LocationRow(address: string, capacity: int)
  datatype EventLocationRow = EventLocationRow(eventId: int, address: string, date: string, expense: int, time: string, name: string)

  // ---- keys ----

  function OrganizerId(o: OrganizerRow): int { o.id }

  /** The UNIQUE (OrganizerName, OrganizerPhoneNo) key. Rows whose two
      columns are both NULL never clash, which giving each of them its own
      key (its OrganizerID) expresses. */
  datatype NamePhone = Unnamed(id: int) | Named(name: Option<string>, phone: Option<string>)

  function NamePhoneKey(o: OrganizerRow): NamePhone {
    if o.name.None? && o.phone.None? then Unnamed(o.id) else Named(o.name, o.phone)
  }

  function EventId(e: EventRow): int { e.id }

  /** The WHERE clauses that pick one row by its key. */
  function OrganizerIs(id: int): OrganizerRow -> bool { (o: OrganizerRow) => o.id == id }
  function OtherOrganizer(id: int): OrganizerRow -> bool { (o: OrganizerRow) => o.id != id }
  function EventIs(id: int): EventRow -> bool { (e: EventRow) => e.id == id }
  function OtherEvent(id: int): EventRow -> bool { (e: EventRow) => e.id != id }
  function MemberKeyOf(m: TeamMemberRow): MemberKey { m.key }
  function MemberIs(key: MemberKey): TeamMemberRow -> bool { (m: TeamMemberRow) => m.key == key }
  function OtherMember(key: MemberKey): TeamMemberRow -> bool { (m: TeamMemberRow) => m.key != key }
  function RoleKey(r: RoleRow): MemberKey { r.key }
  function SponsorKeyOf(s: SponsorRow): SponsorKey { s.key }
  function SupportKey(s: SupportRow): (int, string, string) { (s.eventId, s.sponsor.name, s.supportType) }
  function FeedbackId(f: FeedbackRow): int { f.id }
  function FeedbackIs(id: int): FeedbackRow -> bool { (f: FeedbackRow) => f.id == id }
  function OtherFeedback(id: int): FeedbackRow -> bool { (f: FeedbackRow) => f.id != id }
  function PhotoId(p: PhotoRow): int { p.id }
  function ParticipantId(p: ParticipantRow): int { p.id }
  function ParticipantNameEmail(p: ParticipantRow): (string, string) { (p.name, p.email) }
  function AttendanceKey(a: AttendanceRow): AttendanceRow { a }
  function Address(l: LocationRow): string { l.address }
  function EventLocationId(l: EventLocationRow): int { l.eventId }

  // ---- foreign keys ----

  ghost predicate EventsReferenceOrganizers(events: seq<EventRow>, organizers: seq<OrganizerRow>) {
    forall e :: e in events ==> e.organizerId in Keys(organizers, OrganizerId)
  }

  ghost predicate MembersReferenceOrganizers(members: seq<TeamMemberRow>, organizers: seq<OrganizerRow>) {
    forall m :: m in members && m.organizerId.Some? ==> m.organizerId.value in Keys(organizers, OrganizerId)
  }

  ghost predicate RolesReferenceMembers(roles: seq<RoleRow>, members: seq<TeamMemberRow>) {
    forall r :: r in roles ==> r.key in Keys(members, MemberKeyOf)
  }

  ghost predicate SupportsReference(supports: seq<SupportRow>, events: seq<EventRow>, sponsors: seq<SponsorRow>) {
    forall s :: s in supports ==> s.eventId in Keys(events, EventId) && s.sponsor in Keys(sponsors, SponsorKeyOf)
  }

  ghost predicate FeedbackReferencesEvents(feedback: seq<FeedbackRow>, events: seq<EventRow>) {
    forall f :: f in feedback && f.eventId.Some? ==> f.eventId.value in Keys(events, EventId)
  }

  ghost predicate PhotosReferenceEvents(photos: seq<PhotoRow>, events: seq<EventRow>) {
    forall p :: p in photos ==> p.eventId in Keys(events, EventId)
  }

  ghost predicate AttendanceReferences(attendance: seq<AttendanceRow>, events: seq<EventRow>, participants: seq<ParticipantRow>) {
    forall a :: a in attendance ==> a.eventId in Keys(events, EventId) && a.participantId in Keys(participants, ParticipantId)
  }

  ghost predicate EventLocationsReference(rows: seq<EventLocationRow>, events: seq<EventRow>, locations: seq<LocationRow>) {
    forall l :: l in rows ==> l.eventId in Keys(events, EventId) && l.address in Keys(locations, Address)
  }

  // ---- parent rows a new row needs (its FOREIGN KEYs) ----

  function OrganizedBy(ids: set<int>): EventRow -> bool { (e: EventRow) => e.organizerId in ids }
  function MemberOrganizedBy(ids: set<int>): TeamMemberRow -> bool { (m: TeamMemberRow) => m.organizerId.Some? ==> m.organizerId.value in ids }
  function RoleOf(members: set<MemberKey>): RoleRow -> bool { (r: RoleRow) => r.key in members }
  function SupportParents(events: set<int>, sponsors: set<SponsorKey>): SupportRow -> bool { (s: SupportRow) => s.eventId in events && s.sponsor in sponsors }
  function AboutEvent(events: set<int>): FeedbackRow -> bool { (f: FeedbackRow) => f.eventId.Some? ==> f.eventId.value in events }
  function PhotoOf(events: set<int>): PhotoRow -> bool { (p: PhotoRow) => p.eventId in events }
  function AttendanceParents(events: set<int>, participants: set<int>): AttendanceRow -> bool { (a: AttendanceRow) => a.eventId in events && a.participantId in participants }
  function EventLocationParents(events: set<int>, addresses: set<string>): EventLocationRow -> bool { (l: EventLocationRow) => l.eventId in events && l.address in addresses }
  function NoParent<R>(): R -> bool { _ => true }

  /** The database. Each field is one table, its rows in scan order. */
  class Database {
    var organizers: seq<OrganizerRow>
    var events: seq<EventRow>
    var teamMembers: seq<TeamMemberRow>
    var speakers: seq<RoleRow>
    var photographers: seq<RoleRow>
    var volunteers: seq<RoleRow>
    var sponsors: seq<SponsorRow>
    var supports: seq<SupportRow>
    var feedback: seq<FeedbackRow>
    var photos: seq<PhotoRow>
    var participants: seq<ParticipantRow>
    var attendance: seq<AttendanceRow>
    var locations: seq<LocationRow>
    var eventLocations: seq<EventLocationRow>

    /** Every PRIMARY KEY, UNIQUE and FOREIGN KEY constraint of the schema. */
    ghost predicate Valid()
      reads this
    {
      && Unique(organizers, OrganizerId) && Unique(organizers, NamePhoneKey)
      && Unique(events, EventId) && EventsReferenceOrganizers(events, organizers)
      && Unique(teamMembers, MemberKeyOf) && MembersReferenceOrganizers(teamMembers, organizers)
      && Unique(speakers, RoleKey) && RolesReferenceMembers(speakers, teamMembers)
      && Unique(photographers, RoleKey) && RolesReferenceMembers(photographers, teamMembers)
      && Unique(volunteers, RoleKey) && RolesReferenceMembers(volunteers, teamMembers)
      && Unique(sponsors, SponsorKeyOf)
      && Unique(supports, SupportKey) && SupportsReference(supports, events, sponsors)
      && Unique(feedback, FeedbackId) && FeedbackReferencesEvents(feedback, events)
      && Unique(photos, PhotoId) && PhotosReferenceEvents(photos, events)
      && Unique(participants, ParticipantId) && Unique(participants, ParticipantNameEmail)
      && Unique(attendance, AttendanceKey) && AttendanceReferences(attendance, events, participants)
      && Unique(locations, Address)
      && Unique(eventLocations, EventLocationId) && EventLocationsReference(eventLocations, events, locations)
    }

    ghost predicate Empty()
      reads this
    {
      && organizers == [] && events == [] && teamMembers == [] && speakers == []
      && photographers == [] && volunteers == [] && sponsors == [] && supports == []
      && feedback == [] && photos == [] && participants == [] && attendance == []
      && locations == [] && eventLocations == []
    }

    /** A freshly created schema: every table exists and is empty. */
    constructor ()
      ensures Valid() && Empty()
    {
      organizers, events, teamMembers, speakers := [], [], [], [];
      photographers, volunteers, sponsors, supports := [], [], [], [];
      feedback, photos, participants, attendance := [], [], [], [];
      locations, eventLocations := [], [];
    }

    method InsertOrganizer(row: OrganizerRow) returns (s: Status)
      requires Valid()
      modifies this`organizers
      ensures Valid()
      ensures s.Done? <==> row.id !in Keys(old(organizers), OrganizerId) &&
                           NamePhoneKey(row) !in Keys(old(organizers), NamePhoneKey)
      ensures s.Failed? ==> s.error == UniqueViolation
      ensures organizers == if s.Done? then old(organizers) + [row] else old(organizers)
    {
      if row.id in Keys(organizers, OrganizerId) || NamePhoneKey(row) in Keys(organizers, NamePhoneKey) {
        return Failed(UniqueViolation);
      }
      AppendKeepsUnique(organizers, row, OrganizerId);
      AppendKeepsUnique(organizers, row, NamePhoneKey);
      organizers := organizers + [row];
      s := Done;
    }

    method InsertEvent(row: EventRow) returns (s: Status)
      requires Valid()
      modifies this`events
      ensures Valid()
      ensures s.Done? <==> row.id !in Keys(old(events), EventId) && row.organizerId in Keys(organizers, OrganizerId)
      ensures s.Failed? ==> s.error == (if row.id in Keys(old(events), EventId) then UniqueViolation else ParentKeyNotFound)
      ensures events == if s.Done? then old(events) + [row] else old(events)
    {
      if row.id in Keys(events, EventId) {
        return Failed(UniqueViolation);
      }
      if row.organizerId !in Keys(organizers, OrganizerId) {
        return Failed(ParentKeyNotFound);
      }
      AppendKeepsUnique(events, row, EventId);
      events := events + [row];
      s := Done;
    }

    method InsertTeamMember(row: TeamMemberRow) returns (s: Status)
      requires Valid()
      modifies this`teamMembers
      ensures Valid()
      ensures s.Done? <==> row.key !in Keys(old(teamMembers), MemberKeyOf) &&
                           (row.organizerId.Some? ==> row.organizerId.value in Keys(organizers, OrganizerId))
      ensures s.Failed? ==> s.error == (if row.key in Keys(old(teamMembers), MemberKeyOf) then UniqueViolation else ParentKeyNotFound)
      ensures teamMembers == if s.Done? then old(teamMembers) + [row] else old(teamMembers)
    {
      if row.key in Keys(teamMembers, MemberKeyOf) {
        return Failed(UniqueViolation);
      }
      if row.organizerId.Some? && row.organizerId.value !in Keys(organizers, OrganizerId) {
        return Failed(ParentKeyNotFound);
      }
      AppendKeepsUnique(teamMembers, row, MemberKeyOf);
      teamMembers := teamMembers + [row];
      s := Done;
    }

    method InsertFeedback(row: FeedbackRow) returns (s: Status)
      requires Valid()
      modifies this`feedback
      ensures Valid()
      ensures s.Done? <==> row.id !in Keys(old(feedback), FeedbackId) &&
                           (row.eventId.Some? ==> row.eventId.value in Keys(events, EventId))
      ensures s.Failed? ==> s.error == (if row.id in Keys(old(feedback), FeedbackId) then UniqueViolation else ParentKeyNotFound)
      ensures feedback == if s.Done? then old(feedback) + [row] else old(feedback)
    {
      if row.id in Keys(feedback, FeedbackId) {
        return Failed(UniqueViolation);
      }
      if row.eventId.Some? && row.eventId.value !in Keys(events, EventId) {
        return Failed(ParentKeyNotFound);
      }
      AppendKeepsUnique(feedback, row, FeedbackId);
      feedback := feedback + [row];
      s := Done;
    }

    method InsertParticipant(row: ParticipantRow) returns (s: Status)
      requires Valid()
      modifies this`participants
      ensures Valid()
      ensures s.Done? <==> row.id !in Keys(old(participants), ParticipantId) &&
                           ParticipantNameEmail(row) !in Keys(old(participants), ParticipantNameEmail)
      ensures participants == if s.Done? then old(participants) + [row] else old(participants)
    {
      if row.id in Keys(participants, ParticipantId) || ParticipantNameEmail(row) in Keys(participants, ParticipantNameEmail) {
        return Failed(UniqueViolation);
      }
      AppendKeepsUnique(participants, row, ParticipantId);
      AppendKeepsUnique(participants, row, ParticipantNameEmail);
      participants := participants + [row];
      s := Done;
    }

    /** The INSERT INTO statements of `rows`, run in order; the first that
        fails raises and ends the run. */
    method InsertEvents(rows: seq<EventRow>) returns (s: Status)
      requires Valid()
      modifies this`events
      ensures Valid()
      ensures s.Done? <==> Unique(old(events) + rows, EventId) &&
                           forall x :: x in rows ==> x.organizerId in Keys(organizers, OrganizerId)
      ensures s.Done? ==> events == old(events) + rows
      ensures s.Failed? ==> exists n :: 0 <= n < |rows| && events == old(events) + rows[..n]
    {
      var result, n := InsertEach(events, rows, EventId, OrganizedBy(Keys(organizers, OrganizerId)));
      events := result;
      s := if n == |rows| then Done else Failed(if EventId(rows[n]) in Keys(result, EventId) then UniqueViolation else ParentKeyNotFound);
    }

    /** The INSERT INTO statements of `rows`, run in order; the first that
        fails raises and ends the run. */
    method InsertTeamMembers(rows: seq<TeamMemberRow>) returns (s: Status)
      requires Valid()
      modifies this`teamMembers
      ensures Valid()
      ensures s.Done? <==> Unique(old(teamMembers) + rows, MemberKeyOf) &&
                           forall x :: x in rows ==> (x.organizerId.Some? ==> x.organizerId.value in Keys(organizers, OrganizerId))
      ensures s.Done? ==> teamMembers == old(teamMembers) + rows
      ensures s.Failed? ==> exists n :: 0 <= n < |rows| && teamMembers == old(teamMembers) + rows[..n]
    {
      var result, n := InsertEach(teamMembers, rows, MemberKeyOf, MemberOrganizedBy(Keys(organizers, OrganizerId)));
      teamMembers := result;
      s := if n == |rows| then Done else Failed(if MemberKeyOf(rows[n]) in Keys(result, MemberKeyOf) then UniqueViolation else ParentKeyNotFound);
    }

    /** The INSERT INTO statements of `rows`, run in order; the first that
        fails raises and ends the run. */
    method InsertSpeakers(rows: seq<RoleRow>) returns (s: Status)
      requires Valid()
      modifies this`speakers
      ensures Valid()
      ensures s.Done? <==> Unique(old(speakers) + rows, RoleKey) &&
                           forall x :: x in rows ==> x.key in Keys(teamMembers, MemberKeyOf)
      ensures s.Done? ==> speakers == old(speakers) + rows
      ensures s.Failed? ==> exists n :: 0 <= n < |rows| && speakers == old(speakers) + rows[..n]
    {
      var result, n := InsertEach(speakers, rows, RoleKey, RoleOf(Keys(teamMembers, MemberKeyOf)));
      speakers := result;
      s := if n == |rows| then Done else Failed(if RoleKey(rows[n]) in Keys(result, RoleKey) then UniqueViolation else ParentKeyNotFound);
    }

    /** The INSERT INTO statements of `rows`, run in order; the first that
        fails raises and ends the run. */
    method InsertPhotographers(rows: seq<RoleRow>) returns (s: Status)
      requires Valid()
      modifies this`photographers
      ensures Valid()
      ensures s.Done? <==> Unique(old(photographers) + rows, RoleKey) &&
                           forall x :: x in rows ==> x.key in Keys(teamMembers, MemberKeyOf)
      ensures s.Done? ==> photographers == old(photographers) + rows
      ensures s.Failed? ==> exists n :: 0 <= n < |rows| && photographers == old(photographers) + rows[..n]
    {
      var result, n := InsertEach(photographers, rows, RoleKey, RoleOf(Keys(teamMembers, MemberKeyOf)));
      photographers := result;
      s := if n == |rows| then Done else Failed(if RoleKey(rows[n]) in Keys(result, RoleKey) then UniqueViolation else ParentKeyNotFound);
    }

    /** The INSERT INTO statements of `rows`, run in order; the first that
        fails raises and ends the run. */
    method InsertVolunteers(rows: seq<RoleRow>) returns (s: Status)
      requires Valid()
      modifies this`volunteers
      ensures Valid()
      ensures s.Done? <==> Unique(old(volunteers) + rows, RoleKey) &&
                           forall x :: x in rows ==> x.key in Keys(teamMembers, MemberKeyOf)
      ensures s.Done? ==> volunteers == old(volunteers) + rows
      ensures s.Failed? ==> exists n :: 0 <= n < |rows| && volunteers == old(volunteers) + rows[..n]
    {
      var result, n := InsertEach(volunteers, rows, RoleKey, RoleOf(Keys(teamMembers, MemberKeyOf)));
      volunteers := result;
      s := if n == |rows| then Done else Failed(if RoleKey(rows[n]) in Keys(result, RoleKey) then UniqueViolation else ParentKeyNotFound);
    }

    /** The INSERT INTO statements of `rows`, run in order; the first that
        fails raises and ends the run. */
    method InsertSponsors(rows: seq<SponsorRow>) returns (s: Status)
      requires Valid()
      modifies this`sponsors
      ensures Valid()
      ensures s.Done? <==> Unique(old(sponsors) + rows, SponsorKeyOf)
      ensures s.Done? ==> sponsors == old(sponsors) + rows
      ensures s.Failed? ==> exists n :: 0 <= n < |rows| && sponsors == old(sponsors) + rows[..n]
    {
      var result, n := InsertEach(sponsors, rows, SponsorKeyOf, NoParent());
      sponsors := result;
      s := if n == |rows| then Done else Failed(UniqueViolation);
    }

    /** The INSERT INTO statements of `rows`, run in order; the first that
        fails raises and ends the run. */
    method InsertSupports(rows: seq<SupportRow>) returns (s: Status)
      requires Valid()
      modifies this`supports
      ensures Valid()
      ensures s.Done? <==> Unique(old(supports) + rows, SupportKey) &&
                           forall x :: x in rows ==> x.eventId in Keys(events, EventId) && x.sponsor in Keys(sponsors, SponsorKeyOf)
      ensures s.Done? ==> supports == old(supports) + rows
      ensures s.Failed? ==> exists n :: 0 <= n < |rows| && supports == old(supports) + rows[..n]
    {
      var result, n := InsertEach(supports, rows, SupportKey, SupportParents(Keys(events, EventId), Keys(sponsors, SponsorKeyOf)));
      supports := result;
      s := if n == |rows| then Done else Failed(if SupportKey(rows[n]) in Keys(result, SupportKey) then UniqueViolation else ParentKeyNotFound);
    }

    /** The INSERT INTO statements of `rows`, run in order; the first that
        fails raises and ends the run. */
    method InsertFeedbacks(rows: seq<FeedbackRow>) returns (s: Status)
      requires Valid()
      modifies this`feedback
      ensures Valid()
      ensures s.Done? <==> Unique(old(feedback) + rows, FeedbackId) &&
                           forall x :: x in rows ==> (x.eventId.Some? ==> x.eventId.value in Keys(events, EventId))
      ensures s.Done? ==> feedback == old(feedback) + rows
      ensures s.Failed? ==> exists n :: 0 <= n < |rows| && feedback == old(feedback) + rows[..n]
    {
      var result, n := InsertEach(feedback, rows, FeedbackId, AboutEvent(Keys(events, EventId)));
      feedback := result;
      s := if n == |rows| then Done else Failed(if FeedbackId(rows[n]) in Keys(result, FeedbackId) then UniqueViolation else ParentKeyNotFound);
    }

    /** The INSERT INTO statements of `rows`, run in order; the first that
        fails raises and ends the run. */
    method InsertPhotos(rows: seq<PhotoRow>) returns (s: Status)
      requires Valid()
      modifies this`photos
      ensures Valid()
      ensures s.Done? <==> Unique(old(photos) + rows, PhotoId) &&
                           forall x :: x in rows ==> x.eventId in Keys(events, EventId)
      ensures s.Done? ==> photos == old(photos) + rows
      ensures s.Failed? ==> exists n :: 0 <= n < |rows| && photos == old(photos) + rows[..n]
    {
      var result, n := InsertEach(photos, rows, PhotoId, PhotoOf(Keys(events, EventId)));
      photos := result;
      s := if n == |rows| then Done else Failed(if PhotoId(rows[n]) in Keys(result, PhotoId) then UniqueViolation else ParentKeyNotFound);
    }

    /** The INSERT INTO statements of `rows`, run in order; the first that
        fails raises and ends the run. */
    method InsertAttendance(rows: seq<AttendanceRow>) returns (s: Status)
      requires Valid()
      modifies this`attendance
      ensures Valid()
      ensures s.Done? <==> Unique(old(attendance) + rows, AttendanceKey) &&
                           forall x :: x in rows ==> x.eventId in Keys(events, EventId) && x.participantId in Keys(participants, ParticipantId)
      ensures s.Done? ==> attendance == old(attendance) + rows
      ensures s.Failed? ==> exists n :: 0 <= n < |rows| && attendance == old(attendance) + rows[..n]
    {
      var result, n := InsertEach(attendance, rows, AttendanceKey, AttendanceParents(Keys(events, EventId), Keys(participants, ParticipantId)));
      attendance := result;
      s := if n == |rows| then Done else Failed(if AttendanceKey(rows[n]) in Keys(result, AttendanceKey) then UniqueViolation else ParentKeyNotFound);
    }

    /** The INSERT INTO statements of `rows`, run in order; the first that
        fails raises and ends the run. */
    method InsertLocations(rows: seq<LocationRow>) returns (s: Status)
      requires Valid()
      modifies this`locations
      ensures Valid()
      ensures s.Done? <==> Unique(old(locations) + rows, Address)
      ensures s.Done? ==> locations == old(locations) + rows
      ensures s.Failed? ==> exists n :: 0 <= n < |rows| && locations == old(locations) + rows[..n]
    {
      var result, n := InsertEach(locations, rows, Address, NoParent());
      locations := result;
      s := if n == |rows| then Done else Failed(UniqueViolation);
    }

    /** The INSERT INTO statements of `rows`, run in order; the first that
        fails raises and ends the run. */
    method InsertEventLocations(rows: seq<EventLocationRow>) returns (s: Status)
      requires Valid()
      modifies this`eventLocations
      ensures Valid()
      ensures s.Done? <==> Unique(old(eventLocations) + rows, EventLocationId) &&
                           forall x :: x in rows ==> x.eventId in Keys(events, EventId) && x.address in Keys(locations, Address)
      ensures s.Done? ==> eventLocations == old(eventLocations) + rows
      ensures s.Failed? ==> exists n :: 0 <= n < |rows| && eventLocations == old(eventLocations) + rows[..n]
    {
      var result, n := InsertEach(eventLocations, rows, EventLocationId, EventLocationParents(Keys(events, EventId), Keys(locations, Address)));
      eventLocations := result;
      s := if n == |rows| then Done else Failed(if EventLocationId(rows[n]) in Keys(result, EventLocationId) then UniqueViolation else ParentKeyNotFound);
    }

    // ---- writes an UPDATE or DELETE makes once its checks have passed ----

    /** Rewrites the EVENT row at `i`, keeping its key. */
    method WriteEvent(i: int, row: EventRow)
      requires Valid() && 0 <= i < |events| && row.id == events[i].id
      requires row.organizerId in Keys(organizers, OrganizerId)
      modifies this`events
      ensures Valid() && events == old(events)[i := row]
    {
      UpdateAtKeepsUnique(events, i, row, EventId);
      events := events[i := row];
    }

    /** Removes the EVENT row with the key, which no row references. */
    method DeleteEventRow(id: int)
      requires Valid()
      requires forall f :: f in feedback ==> f.eventId != Some(id)
      requires forall s :: s in supports ==> s.eventId != id
      requires forall p :: p in photos ==> p.eventId != id
      requires forall a :: a in attendance ==> a.eventId != id
      requires forall l :: l in eventLocations ==> l.eventId != id
      modifies this`events
      ensures Valid() && events == Filter(old(events), OtherEvent(id))
      ensures Keys(events, EventId) == Keys(old(events), EventId) - {id}
    {
      FilterKeepsUnique(events, OtherEvent(id), EventId);
      FilterKeys(events, OtherEvent(id), EventId, id);
      events := Filter(events, OtherEvent(id));
    }

    /** Rewrites the ORGANIZER row at `i`, keeping its key, to a (name,
        phone) pair no other row has. */
    method WriteOrganizer(i: int, row: OrganizerRow)
      requires Valid() && 0 <= i < |organizers| && row.id == organizers[i].id
      requires forall j :: 0 <= j < |organizers| && j != i ==> NamePhoneKey(organizers[j]) != NamePhoneKey(row)
      modifies this`organizers
      ensures Valid() && organizers == old(organizers)[i := row]
    {
      UpdateAtKeepsUnique(organizers, i, row, OrganizerId);
      UpdateAtFreshKeepsUnique(organizers, i, row, NamePhoneKey);
      organizers := organizers[i := row];
    }

    /** Removes the ORGANIZER row with the key, which no row references. */
    method DeleteOrganizerRow(id: int)
      requires Valid()
      requires forall e :: e in events ==> e.organizerId != id
      requires forall m :: m in teamMembers ==> m.organizerId != Some(id)
      modifies this`organizers
      ensures Valid() && organizers == Filter(old(organizers), OtherOrganizer(id))
      ensures Keys(organizers, OrganizerId) == Keys(old(organizers), OrganizerId) - {id}
    {
      FilterKeepsUnique(organizers, OtherOrganizer(id), OrganizerId);
      FilterKeepsUnique(organizers, OtherOrganizer(id), NamePhoneKey);
      FilterKeys(organizers, OtherOrganizer(id), OrganizerId, id);
      organizers := Filter(organizers, OtherOrganizer(id));
    }

    /** Rewrites the FEEDBACK row at `i`, keeping its key. */
    method WriteFeedback(i: int, row: FeedbackRow)
      requires Valid() && 0 <= i < |feedback| && row.id == feedback[i].id
      requires row.eventId.Some? ==> row.eventId.value in Keys(events, EventId)
      modifies this`feedback
      ensures Valid() && feedback == old(feedback)[i := row]
    {
      UpdateAtKeepsUnique(feedback, i, row, FeedbackId);
      feedback := feedback[i := row];
    }

    /** Removes the FEEDBACK row with the key; no table references FEEDBACK. */
    method DeleteFeedbackRow(id: int)
      requires Valid()
      modifies this`feedback
      ensures Valid() && feedback == Filter(old(feedback), OtherFeedback(id))
      ensures Keys(feedback, FeedbackId) == Keys(old(feedback), FeedbackId) - {id}
    {
      FilterKeepsUnique(feedback, OtherFeedback(id), FeedbackId);
      FilterKeys(feedback, OtherFeedback(id), FeedbackId, id);
      feedback := Filter(feedback, OtherFeedback(id));
    }

    /** Rewrites the TEAM_MEMBER row at `i`, keeping its key. */
    method WriteTeamMember(i: int, row: TeamMemberRow)
      requires Valid() && 0 <= i < |teamMembers| && row.key == teamMembers[i].key
      requires row.organizerId.Some? ==> row.organizerId.value in Keys(organizers, OrganizerId)
      modifies this`teamMembers
      ensures Valid() && teamMembers == old(teamMembers)[i := row]
    {
      UpdateAtKeepsUnique(teamMembers, i, row, MemberKeyOf);
      teamMembers := teamMembers[i := row];
    }

    /** Removes the TEAM_MEMBER row with the key, which no role row
        references. */
    method DeleteTeamMemberRow(key: MemberKey)
      requires Valid()
      requires forall r :: r in speakers ==> r.key != key
      requires forall r :: r in photographers ==> r.key != key
      requires forall r :: r in volunteers ==> r.key != key
      modifies this`teamMembers
      ensures Valid() && teamMembers == Filter(old(teamMembers), OtherMember(key))
      ensures Keys(teamMembers, MemberKeyOf) == Keys(old(teamMembers), MemberKeyOf) - {key}
    {
      FilterKeepsUnique(teamMembers, OtherMember(key), MemberKeyOf);
      FilterKeys(teamMembers, OtherMember(key), MemberKeyOf, key);
      teamMembers := Filter(teamMembers, OtherMember(key));
    }
  }
}
