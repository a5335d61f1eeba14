/** The setup script: drop the tables, create them, and fill them with the
    sample rows in the order the script inserts them. */
module Setup {
  import opened Rows
  import opened Store
  import opened Schema

  // ---- the sample rows, table by table, in insert order ----

  const SampleOrganizers: seq<OrganizerRow> := [
    OrganizerRow(1, Some("UBC Science"), "contact@ubcscience.ca", Some("6041234567")),
    OrganizerRow(2, Some("UBC Tech Club"), "techclub@ubc.ca", Some("6041234568")),
    OrganizerRow(3, Some("IKB"), "ikb@ubc.ca", Some("6041234569"))
  ]

  /** EventDate holds the date the script converts with TO_DATE. */
  const SampleEvents: seq<EventRow> := [
    EventRow(101, 1, Some("2023-12-15"), 5000, "18:00", "Tech Expo 2023"),
    EventRow(102, 1, Some("2023-10-07"), 3000, "09:00", "DevFest"),
    EventRow(103, 2, Some("2023-11-22"), 4000, "12:00", "Literature Festival"),
    EventRow(104, 2, Some("2023-09-05"), 2000, "10:00", "Robotics Workshop"),
    EventRow(105, 3, Some("2023-08-20"), 3500, "14:00", "Art History Exhibition"),
    EventRow(106, 3, Some("2023-07-11"), 2500, "16:00", "Historical Archives Tour")
  ]

  const JohnDoe := MemberKey("John Doe", "7781234567")
  const EmilySmith := MemberKey("Emily Smith", "7781234568")
  const AlexJohnson := MemberKey("Alex Johnson", "7781234569")

  const SampleTeamMembers: seq<TeamMemberRow> := [
    TeamMemberRow(JohnDoe, Some(1), Some("johndoe@ubc.ca"), Some(30)),
    TeamMemberRow(EmilySmith, Some(1), Some("emilysmith@ubc.ca"), Some(35)),
    TeamMemberRow(AlexJohnson, Some(2), Some("alexjohnson@ubc.ca"), Some(40))
  ]

  const SampleSpeakers: seq<RoleRow> := [RoleRow(JohnDoe, "Expert")]
  const SamplePhotographers: seq<RoleRow> := [RoleRow(AlexJohnson, "Sony A7 III")]
  const SampleVolunteers: seq<RoleRow> := [RoleRow(EmilySmith, "First Aid")]

  const Google := SponsorKey("Google", "8001234567")
  const Amazon := SponsorKey("Amazon", "8001234568")
  const Microsoft := SponsorKey("Microsoft", "8001234569")
  const Adobe := SponsorKey("Adobe", "8001234570")
  const Intel := SponsorKey("Intel", "8001234571")
  const Tesla := SponsorKey("Tesla", "8001234572")

  const SampleSponsors: seq<SponsorRow> := [
    SponsorRow(Google, "sponsor@google.com"),
    SponsorRow(Amazon, "sponsor@amazon.com"),
    SponsorRow(Microsoft, "sponsor@microsoft.com"),
    SponsorRow(Adobe, "sponsor@adobe.com"),
    SponsorRow(Intel, "sponsor@intel.com"),
    SponsorRow(Tesla, "sponsor@tesla.com")
  ]

  const SampleSupports: seq<SupportRow> := [
    SupportRow(101, Google, "Financial", 10000),
    SupportRow(102, Google, "In-Kind", 12000),
    SupportRow(103, Google, "Media", 15000),
    SupportRow(104, Google, "Technical", 11000),
    SupportRow(105, Amazon, "Financial", 16000),
    SupportRow(102, Microsoft, "In-Kind", 20000),
    SupportRow(102, Adobe, "Media", 14000),
    SupportRow(101, Intel, "Technical", 17000)
  ]

  const SampleFeedback: seq<FeedbackRow> := [
    FeedbackRow(1004, Some(104), Some(5), Some("Outstanding workshop with hands-on experience.")),
    FeedbackRow(1005, Some(105), Some(4), Some("Very informative and well-presented exhibition.")),
    FeedbackRow(1006, Some(106), Some(5), Some("Incredible tour, rich in history and detail.")),
    FeedbackRow(1007, Some(101), Some(4), Some("Impressive tech displays and networking opportunities.")),
    FeedbackRow(1008, Some(102), Some(4), Some("Well-organized event with great speakers.")),
    FeedbackRow(1009, Some(103), Some(2), Some("Interesting topics, but the sessions were too long.")),
    FeedbackRow(1010, Some(104), Some(3), Some("Robotics concepts were great, but needed more practical examples.")),
    FeedbackRow(1011, Some(105), Some(5), Some("Fantastic curation of art pieces and knowledgeable guides.")),
    FeedbackRow(1012, Some(106), Some(3), Some("Enjoyable tour, but it felt a bit rushed."))
  ]

  const SamplePhotos: seq<PhotoRow> := [PhotoRow(2001, 101, "Opening Ceremony Photo")]

  const SampleParticipants: seq<ParticipantRow> := [
    ParticipantRow(501, "Howard", "howards@ubc.ca"),
    ParticipantRow(502, "Jerry", "jerryc@ubc.ca")
  ]

  const SampleAttendance: seq<AttendanceRow> := [AttendanceRow(101, 501), AttendanceRow(101, 502)]

  const RobsonSquare := "UBC Robson Square, 800 Robson St"
  const LifeSciences := "UBC Life Sciences Centre, 2350 Health Sciences Mall"
  const Nest := "UBC Nest, 6133 University Blvd"

  const SampleLocations: seq<LocationRow> := [
    LocationRow(RobsonSquare, 300),
    LocationRow(LifeSciences, 500),
    LocationRow(Nest, 200)
  ]

  const SampleEventLocations: seq<EventLocationRow> := [
    EventLocationRow(101, RobsonSquare, "2023-12-15", 5000, "18:00", "Tech Expo 2023"),
    EventLocationRow(102, LifeSciences, "2023-10-07", 3000, "09:00", "DevFest"),
    EventLocationRow(103, Nest, "2023-11-22", 4000, "12:00", "Literature Festival"),
    EventLocationRow(104, RobsonSquare, "2023-09-05", 2000, "10:00", "Robotics Workshop")
  ]

  /** The tables hold exactly the sample rows. */
  ghost predicate HoldsSample(db: Database)
    reads db
  {
    && db.organizers == SampleOrganizers && db.events == SampleEvents
    && db.teamMembers == SampleTeamMembers && db.speakers == SampleSpeakers
    && db.photographers == SamplePhotographers && db.volunteers == SampleVolunteers
    && db.sponsors == SampleSponsors && db.supports == SampleSupports
    && db.feedback == SampleFeedback && db.photos == SamplePhotos
    && db.participants == SampleParticipants && db.attendance == SampleAttendance
    && db.locations == SampleLocations && db.eventLocations == SampleEventLocations
  }

  /** The setup script succeeds on `catalog`: the drop block ends without
      raising, and `tablesToCreate` then creates every table in order. */
  ghost predicate SetupSucceeds(catalog: set<Table>) {
    exists k :: && DropRun(catalog, DropOrder, k)
                && (k == |DropOrder| || DropOrder[k] !in catalog - Elems(DropOrder[..k]))
                && CreatableInOrder(catalog - Elems(DropOrder[..k]), CreateOrder)
  }

  /** The whole script: the drop block, the CREATE TABLE loop, then the
      sample inserts into the new, empty tables. An exception anywhere ends
      the script (`ok` false). */
  method SetupDatabase(catalog: set<Table>) returns (db: Database?, tables: set<Table>, ok: bool)
    ensures ok <==> SetupSucceeds(catalog)
    ensures ok ==> (forall t :: t in tables) && db != null && db.Valid() && HoldsSample(db)
  {
    var dropped, dropOk := DropTables(catalog, DropOrder);
    ghost var k :| DropRun(catalog, DropOrder, k) && dropped == catalog - Elems(DropOrder[..k]) &&
                   (dropOk <==> k == |DropOrder| || DropOrder[k] !in dropped);
    forall k' | DropRun(catalog, DropOrder, k') ensures k' == k {
      DropRunUnique(catalog, DropOrder, k, k');
    }
    if !dropOk {
      return null, dropped, false;
    }
    var created, createOk := CreateTables(dropped, CreateOrder);
    if !createOk {
      return null, created, false;
    }
    forall t ensures t in created {
      CreateOrderHasEveryTable(t);
    }
    db := new Database();
    ok := SeedSampleData(db);
    tables := created;
  }

  /** On an empty catalog (a first run) or on one holding every table (a
      re-run), the script succeeds. */
  lemma SetupSucceedsOnEmptyOrFull(catalog: set<Table>)
    requires catalog == {} || forall t :: t in catalog
    ensures SetupSucceeds(catalog)
  {
    CreateOrderCreatesAll();
    if catalog == {} {
      assert DropRun(catalog, DropOrder, 0);
      assert catalog - Elems(DropOrder[..0]) == {};
    } else {
      DropOrderDropsAll(catalog);
      assert DropOrder[..|DropOrder|] == DropOrder;
      assert DropRun(catalog, DropOrder, |DropOrder|);
    }
  }

  /** A catalog left with ORGANIZER but without EVENT_AND_LOCATION (a run
      that failed after creating the first table) makes the first DROP raise
      ORA-00942, which ends the block with ORGANIZER still there; the
      CREATE TABLE ORGANIZER that follows then fails. */
  lemma SetupFailsOnPartialCatalog()
    ensures !SetupSucceeds({Organizer})
  {
    forall k | DropRun({Organizer}, DropOrder, k)
      ensures !CreatableInOrder({Organizer} - Elems(DropOrder[..k]), CreateOrder)
    {
      assert !CanDrop({Organizer} - Elems(DropOrder[..0]), DropOrder[0]);
      assert k == 0;
      assert !CanCreate({Organizer} - Elems(DropOrder[..0]) + Elems(CreateOrder[..0]), CreateOrder[0]);
    }
  }

  /** The sample INSERT statements, run in order on freshly created tables:
      every one of them succeeds, and the tables then hold exactly the
      sample rows. */
  method SeedSampleData(db: Database) returns (ok: bool)
    requires db.Valid() && db.Empty()
    modifies db
    ensures db.Valid() && ok && HoldsSample(db)
  {
    var people := SeedOrganizersAndEvents(db);
    var team := SeedTeam(db);
    var details := SeedEventDetails(db);
    ok := people && team && details;
  }

  /** The inserts of the rows that hang off the sample events: sponsorship,
      feedback and photos, participants and attendance, locations. */
  method SeedEventDetails(db: Database) returns (ok: bool)
    requires db.Valid() && db.events == SampleEvents
    requires db.sponsors == [] && db.supports == [] && db.feedback == [] && db.photos == []
    requires db.participants == [] && db.attendance == [] && db.locations == [] && db.eventLocations == []
    modifies db`sponsors, db`supports, db`feedback, db`photos
    modifies db`participants, db`attendance, db`locations, db`eventLocations
    ensures db.Valid() && ok
    ensures db.sponsors == SampleSponsors && db.supports == SampleSupports
    ensures db.feedback == SampleFeedback && db.photos == SamplePhotos
    ensures db.participants == SampleParticipants && db.attendance == SampleAttendance
    ensures db.locations == SampleLocations && db.eventLocations == SampleEventLocations
  {
    var sponsorship := SeedSponsorship(db);
    var ratings := SeedFeedbackAndPhotos(db);
    var attendance := SeedParticipants(db);
    var places := SeedLocations(db);
    ok := sponsorship && ratings && attendance && places;
  }

  /** The ORGANIZER and EVENT inserts. */
  method SeedOrganizersAndEvents(db: Database) returns (ok: bool)
    requires db.Valid() && db.organizers == [] && db.events == []
    modifies db`organizers, db`events
    ensures db.Valid() && ok
    ensures db.organizers == SampleOrganizers && db.events == SampleEvents
  {
    var s := db.InsertOrganizer(SampleOrganizers[0]);
    if s.Failed? { return false; }
    s := db.InsertOrganizer(SampleOrganizers[1]);
    if s.Failed? { return false; }
    s := db.InsertOrganizer(SampleOrganizers[2]);
    if s.Failed? { return false; }
    assert db.organizers == SampleOrganizers;
    SampleEventsFit();
    s := db.InsertEvents(SampleEvents);
    ok := s.Done?;
  }

  /** The TEAM_MEMBER, SPEAKER, PHOTOGRAPHER and VOLUNTEER inserts. */
  method SeedTeam(db: Database) returns (ok: bool)
    requires db.Valid() && db.organizers == SampleOrganizers
    requires db.teamMembers == [] && db.speakers == [] && db.photographers == [] && db.volunteers == []
    modifies db`teamMembers, db`speakers, db`photographers, db`volunteers
    ensures db.Valid() && ok
    ensures db.teamMembers == SampleTeamMembers && db.speakers == SampleSpeakers
    ensures db.photographers == SamplePhotographers && db.volunteers == SampleVolunteers
  {
    SampleTeamMembersFit();
    var s := db.InsertTeamMembers(SampleTeamMembers);
    if s.Failed? { return false; }
    SampleRolesFit();
    s := db.InsertSpeakers(SampleSpeakers);
    if s.Failed? { return false; }
    s := db.InsertPhotographers(SamplePhotographers);
    if s.Failed? { return false; }
    s := db.InsertVolunteers(SampleVolunteers);
    ok := s.Done?;
  }

  /** The SPONSOR and SPONSOR_SUPPORT inserts. */
  method SeedSponsorship(db: Database) returns (ok: bool)
    requires db.Valid() && db.events == SampleEvents && db.sponsors == [] && db.supports == []
    modifies db`sponsors, db`supports
    ensures db.Valid() && ok
    ensures db.sponsors == SampleSponsors && db.supports == SampleSupports
  {
    SampleSponsorsFit();
    var s := db.InsertSponsors(SampleSponsors);
    if s.Failed? { return false; }
    SampleSupportsFit();
    s := db.InsertSupports(SampleSupports);
    ok := s.Done?;
  }

  /** The FEEDBACK and EVENT_PHOTO inserts. */
  method SeedFeedbackAndPhotos(db: Database) returns (ok: bool)
    requires db.Valid() && db.events == SampleEvents && db.feedback == [] && db.photos == []
    modifies db`feedback, db`photos
    ensures db.Valid() && ok
    ensures db.feedback == SampleFeedback && db.photos == SamplePhotos
  {
    SampleFeedbackFit();
    var s := db.InsertFeedbacks(SampleFeedback);
    if s.Failed? { return false; }
    SamplePhotosFit();
    s := db.InsertPhotos(SamplePhotos);
    ok := s.Done?;
  }

  /** The PARTICIPANT and ATTENDANCE inserts. */
  method SeedParticipants(db: Database) returns (ok: bool)
    requires db.Valid() && db.events == SampleEvents && db.participants == [] && db.attendance == []
    modifies db`participants, db`attendance
    ensures db.Valid() && ok
    ensures db.participants == SampleParticipants && db.attendance == SampleAttendance
  {
    var s := db.InsertParticipant(SampleParticipants[0]);
    if s.Failed? { return false; }
    s := db.InsertParticipant(SampleParticipants[1]);
    if s.Failed? { return false; }
    assert db.participants == SampleParticipants;
    SampleAttendanceFit();
    s := db.InsertAttendance(SampleAttendance);
    ok := s.Done?;
  }

  /** The LOCATION and EVENT_AND_LOCATION inserts. */
  method SeedLocations(db: Database) returns (ok: bool)
    requires db.Valid() && db.events == SampleEvents && db.locations == [] && db.eventLocations == []
    modifies db`locations, db`eventLocations
    ensures db.Valid() && ok
    ensures db.locations == SampleLocations && db.eventLocations == SampleEventLocations
  {
    SampleLocationsFit();
    var s := db.InsertLocations(SampleLocations);
    if s.Failed? { return false; }
    SampleEventLocationsFit();
    s := db.InsertEventLocations(SampleEventLocations);
    ok := s.Done?;
  }

  // ---- the sample rows meet every key and reference constraint ----

  /** The OrganizerIDs of the sample organizers. */
  lemma SampleOrganizerIds()
    ensures forall k :: k in Keys(SampleOrganizers, OrganizerId) <==> k in [1, 2, 3]
  {
    KeysListed(SampleOrganizers, OrganizerId, [1, 2, 3]);
  }

  /** The EventIDs of the sample events. */
  lemma SampleEventIds()
    ensures forall k :: k in Keys(SampleEvents, EventId) <==> k in [101, 102, 103, 104, 105, 106]
  {
    KeysListed(SampleEvents, EventId, [101, 102, 103, 104, 105, 106]);
  }

  /** The (MemberName, MemberPhoneNo) keys of the sample team members. */
  lemma SampleMemberKeys()
    ensures forall k :: k in Keys(SampleTeamMembers, MemberKeyOf) <==> k in [JohnDoe, EmilySmith, AlexJohnson]
  {
    KeysListed(SampleTeamMembers, MemberKeyOf, [JohnDoe, EmilySmith, AlexJohnson]);
  }

  /** The (SponsorName, SponsorPhoneNo) keys of the sample sponsors. */
  lemma SampleSponsorKeys()
    ensures forall k :: k in Keys(SampleSponsors, SponsorKeyOf) <==> k in [Google, Amazon, Microsoft, Adobe, Intel, Tesla]
  {
    KeysListed(SampleSponsors, SponsorKeyOf, [Google, Amazon, Microsoft, Adobe, Intel, Tesla]);
  }

  /** The ParticipantIDs of the sample participants. */
  lemma SampleParticipantIds()
    ensures forall k :: k in Keys(SampleParticipants, ParticipantId) <==> k in [501, 502]
  {
    KeysListed(SampleParticipants, ParticipantId, [501, 502]);
  }

  /** The addresses of the sample locations. */
  lemma SampleAddresses()
    ensures forall k :: k in Keys(SampleLocations, Address) <==> k in [RobsonSquare, LifeSciences, Nest]
  {
    KeysListed(SampleLocations, Address, [RobsonSquare, LifeSciences, Nest]);
  }

  /** Each sample event has a distinct EventID and names an organizer
      inserted before it. */
  lemma SampleEventsFit()
    ensures Unique(SampleEvents, EventId)
    ensures forall x :: x in SampleEvents ==> x.organizerId in Keys(SampleOrganizers, OrganizerId)
  {
    SampleOrganizerIds();
  }

  lemma SampleTeamMembersFit()
    ensures Unique(SampleTeamMembers, MemberKeyOf)
    ensures forall x :: x in SampleTeamMembers ==> (x.organizerId.Some? ==> x.organizerId.value in Keys(SampleOrganizers, OrganizerId))
  {
    SampleOrganizerIds();
  }

  lemma SampleRolesFit()
    ensures Unique(SampleSpeakers, RoleKey) && Unique(SamplePhotographers, RoleKey) && Unique(SampleVolunteers, RoleKey)
    ensures forall x :: x in SampleSpeakers ==> x.key in Keys(SampleTeamMembers, MemberKeyOf)
    ensures forall x :: x in SamplePhotographers ==> x.key in Keys(SampleTeamMembers, MemberKeyOf)
    ensures forall x :: x in SampleVolunteers ==> x.key in Keys(SampleTeamMembers, MemberKeyOf)
  {
    SampleMemberKeys();
  }

  lemma SampleSponsorsFit()
    ensures Unique(SampleSponsors, SponsorKeyOf)
  {
  }

  /** The (EventID, SponsorName, SponsorshipType) triples are distinct and
      every support row names a sample event and a sample sponsor. */
  lemma SampleSupportsFit()
    ensures Unique(SampleSupports, SupportKey)
    ensures forall x :: x in SampleSupports ==> x.eventId in Keys(SampleEvents, EventId) && x.sponsor in Keys(SampleSponsors, SponsorKeyOf)
  {
    SampleEventIds();
    SampleSponsorKeys();
  }

  /** FeedbackIDs 1004 to 1012 are distinct and every rating is about a
      sample event. */
  lemma SampleFeedbackFit()
    ensures Unique(SampleFeedback, FeedbackId)
    ensures forall x :: x in SampleFeedback ==> (x.eventId.Some? ==> x.eventId.value in Keys(SampleEvents, EventId))
  {
    SampleEventIds();
  }

  lemma SamplePhotosFit()
    ensures Unique(SamplePhotos, PhotoId)
    ensures forall x :: x in SamplePhotos ==> x.eventId in Keys(SampleEvents, EventId)
  {
    SampleEventIds();
  }

  lemma SampleAttendanceFit()
    ensures Unique(SampleAttendance, AttendanceKey)
    ensures forall x :: x in SampleAttendance ==> x.eventId in Keys(SampleEvents, EventId) && x.participantId in Keys(SampleParticipants, ParticipantId)
  {
    SampleEventIds();
    SampleParticipantIds();
  }

  lemma SampleLocationsFit()
    ensures Unique(SampleLocations, Address)
  {
  }

  lemma SampleEventLocationsFit()
    ensures Unique(SampleEventLocations, EventLocationId)
    ensures forall x :: x in SampleEventLocations ==> x.eventId in Keys(SampleEvents, EventId) && x.address in Keys(SampleLocations, Address)
  {
    SampleEventIds();
    SampleAddresses();
  }

  // ---- properties of the sample data ----

  /** No sample team member holds two roles. */
  lemma SampleRolesDisjoint()
    ensures Keys(SampleSpeakers, RoleKey) !! Keys(SamplePhotographers, RoleKey)
    ensures Keys(SampleSpeakers, RoleKey) !! Keys(SampleVolunteers, RoleKey)
    ensures Keys(SamplePhotographers, RoleKey) !! Keys(SampleVolunteers, RoleKey)
  {
    KeysListed(SampleSpeakers, RoleKey, [JohnDoe]);
    KeysListed(SamplePhotographers, RoleKey, [AlexJohnson]);
    KeysListed(SampleVolunteers, RoleKey, [EmilySmith]);
  }

  /** Each sample EVENT_AND_LOCATION row repeats the date, expense, time
      and name of the event it places. */
  lemma SampleEventLocationsCopyEvents()
    ensures forall l :: l in SampleEventLocations ==>
              exists e :: e in SampleEvents && e.id == l.eventId && e.date == Some(l.date) &&
                          e.expense == l.expense && e.time == l.time && e.name == l.name
  {
    forall l | l in SampleEventLocations
      ensures exists e :: e in SampleEvents && e.id == l.eventId && e.date == Some(l.date) &&
                          e.expense == l.expense && e.time == l.time && e.name == l.name
    {
      var i :| 0 <= i < |SampleEventLocations| && SampleEventLocations[i] == l;
      assert SampleEvents[i] in SampleEvents;
    }
  }

  /** The kinds of support a sponsor has given. */
  function TypesOf(supports: seq<SupportRow>, sponsorName: string): set<string> {
    set s | s in supports && s.sponsor.name == sponsorName :: s.supportType
  }

  /** Every kind of support recorded. */
  function AllTypes(supports: seq<SupportRow>): set<string> {
    set s | s in supports :: s.supportType
  }

  /** In the sample data Google alone has given every kind of support. */
  lemma OnlyGoogleGaveEveryType(sponsorName: string)
    ensures AllTypes(SampleSupports) == {"Financial", "In-Kind", "Media", "Technical"}
    ensures TypesOf(SampleSupports, sponsorName) == AllTypes(SampleSupports) <==> sponsorName == "Google"
  {
    var s := SampleSupports;
    assert s[0].supportType == "Financial" && s[1].supportType == "In-Kind";
    assert s[2].supportType == "Media" && s[3].supportType == "Technical";
    if sponsorName == "Google" {
      assert s[0] in s && s[1] in s && s[2] in s && s[3] in s;
    } else {
      assert "Financial" !in TypesOf(s, sponsorName) || "In-Kind" !in TypesOf(s, sponsorName);
    }
  }
}
