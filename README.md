# UBC event collection system: a Dafny model of its data layer

The system keeps a university club's events in an Oracle database. It has
fourteen tables: ORGANIZER, EVENT, TEAM_MEMBER with its SPEAKER, PHOTOGRAPHER
and VOLUNTEER roles, SPONSOR and SPONSOR_SUPPORT, FEEDBACK, EVENT_PHOTO,
PARTICIPANT and ATTENDANCE, and LOCATION and EVENT_AND_LOCATION. A Node.js
server reaches the database through one model module per entity. Each model
function opens a connection and runs one statement (or a few). It either
returns the outcome or the store's error, or rethrows that error.

This project models:

- the setup script, which drops the tables, creates them in order and seeds
  the sample rows;
- the event model: add with its validation pipeline, update, delete, the
  lookups, and the three reports;
- the organizer, feedback and team-member models: list, add, update and
  delete.

The database is the class `Store.Database`, with one `seq` field per table.
Its `Valid()` invariant holds every PRIMARY KEY, UNIQUE and FOREIGN KEY
constraint of the DDL. Each model operation is a method on that class. The
method is proved against a specification function of the old tables (the
outcome, and the new contents of the one table it may change). The lemmas
then state what the source promises about those functions.

Oracle behaviour the operations depend on is modelled explicitly:

- an empty string bound to a column is stored as NULL;
- an INTEGER column rounds half away from zero;
- NOT NULL, UNIQUE and FOREIGN KEY violations are errors, as are a value of
  the wrong type for its column (ORA-00932), an unknown column (ORA-00904)
  and an empty SET list (ORA-00936);
- TO_TIMESTAMP refuses a date that is not on the calendar.

A JavaScript request value is `JsValues.JsValue`: undefined, null, a boolean,
a number or a string. Its truthiness and `Number.isInteger` follow the
language. Whether the store could be reached is a `reachable` parameter of
each operation.

Modules:

| module | what it holds |
|---|---|
| `Rows` | filter, count, replace and key sets over a table's rows; statement-by-statement insertion |
| `JsValues` | JavaScript values, truthiness, integer tests, INTEGER-column rounding |
| `Formats` | the date and time patterns of `addEvent`, the calendar, `UPPER` and `LIKE '%p%'` |
| `Schema` | the tables, their foreign keys, the create and drop orders |
| `Store` | row types, constraints, the `Database` class and its guarded writes, the generic SET-list fold |
| `Setup` | `setupDatabase` and the sample data |
| `Events` | `eventModel.js` |
| `Organizers` | `organizerModel.js` |
| `Feedback` | `feedbackModel.js` |
| `TeamMembers` | `teamMemberModel.js` |

## Model

| member | source | states |
|---|---|---|
| Rows.Filter | server/models/organizerModel.js:81-82 | a DELETE ... WHERE keeps exactly the rows that fail the condition and never adds rows |
| Rows.Count | server/models/eventModel.js:219-223 | a COUNT(*) is at most the number of rows, and is zero exactly when no row satisfies the condition |
| Rows.CountByKeyAtMostOne | server/models/eventModel.js:219-235 | over a table with a unique key, COUNT(*) WHERE key = k is 0 or 1, and is 1 exactly when k is a stored key |
| Rows.FilterKeepsUnique | server/dbsetup.js:43 | deleting rows never breaks a PRIMARY KEY |
| Rows.FilterKeys | server/models/organizerModel.js:81-82 | deleting by key removes exactly that key from the table's key set |
| Rows.InsertEach | server/dbsetup.js:195-270 | one INSERT per row in order, stopping at the first refused one: the table grows by a prefix of the rows, and it takes them all exactly when the keys stay unique and every parent exists |
| JsValues.IntegerOf | server/models/eventModel.js:197-199 | a value that passes `Number.isInteger` denotes that integer exactly |
| JsValues.Utf16Length | server/models/eventModel.js:214 | `.length` counts at least one and at most two code units per character |
| JsValues.Utf16LengthIsCharCount | server/models/eventModel.js:214 | `.length` equals the number of characters exactly when no character lies above U+FFFF |
| JsValues.AstralTextCountsTwice | server/models/eventModel.js:290 | text made only of characters above U+FFFF has twice as many code units as characters |
| JsValues.OracleRound | server/dbsetup.js:56 | a number stored in an INTEGER column is within one half of it, and a tie moves away from zero |
| JsValues.OracleRoundKeepsIntegers | server/dbsetup.js:53-56 | an integer-valued number is stored unchanged |
| Formats.TimeShapeIsClock | server/models/eventModel.js:209-212 | the time pattern accepts exactly the strings HH:MM with 0 <= HH < 24 and 0 <= MM < 60 |
| Formats.DateShapeIsDigitGroups | server/models/eventModel.js:204-207 | the date pattern accepts exactly four digits, a dash, two digits, a dash, two digits |
| Formats.ImpossibleDatePasses | server/models/eventModel.js:204-207 | the pattern lets through "2023-13-45", which is not a calendar date |
| Formats.LeapDay | server/models/eventModel.js:240 | the calendar that TO_TIMESTAMP applies accepts 29 February only in a leap year, with 2000 a leap year and 1900 not |
| Formats.CalendarChange | server/models/eventModel.js:240 | Oracle's calendar is Julian before 15 October 1582, so 1500-02-29 exists, and the skipped days such as 1582-10-10 do not |
| Formats.Upper | server/models/eventModel.js:94 | UPPER maps each character, keeping the length |
| Formats.EmptyPatternMatchesAll | server/models/eventModel.js:164-166 | LIKE '%%' matches every name |
| Schema.CreateTables | server/dbsetup.js:187-190 | the CREATE TABLE loop succeeds exactly when each table is new and its parents exist at its turn; on success the catalog gains every table, and on failure it keeps the tables created before the failing one |
| Schema.DropTables | server/dbsetup.js:15-35 | the drop block drops tables in order until the first missing one, where ORA-00942 ends it silently, or until a table still referenced by another, which fails the script |
| Schema.CreateOrderHasParentsFirst | server/dbsetup.js:39-185 | every table is listed after the tables its foreign keys name, and no table is listed twice |
| Schema.ParentsFirstCreates | server/dbsetup.js:187-190 | any duplicate-free, parents-first order that names every parent creates cleanly from an empty catalog |
| Schema.CreateOrderCreatesAll | server/dbsetup.js:39-190 | the script's create order runs cleanly on an empty catalog |
| Schema.DropOrderReversesCreateOrder | server/dbsetup.js:16-29 | the drop order is the create order reversed |
| Schema.DropOrderHasChildrenFirst | server/dbsetup.js:16-29 | every table is dropped before the tables it references |
| Schema.CreateOrderHasEveryTable | server/dbsetup.js:16-29 | both orders name all fourteen tables |
| Schema.DropOrderDropsAll | server/dbsetup.js:15-35 | on a catalog holding every table each drop is allowed at its turn, and the block leaves nothing |
| Schema.NothingReferencesFeedback | server/dbsetup.js:126-135 | no table has a foreign key into FEEDBACK |
| Store.Text | server/models/organizerModel.js:47-51 | an empty string is stored as NULL and any other string as itself |
| Store.NullIfEmpty | server/models/organizerModel.js:66-68 | a bound value is stored as NULL exactly when it is NULL or the empty string, and otherwise unchanged |
| Store.Rebind | server/models/organizerModel.js:67 | `{...updateFields, K: k}` keeps the order and the values of the fields and replaces the value of a field named K by k |
| Store.SetAllWritesNamedColumns | server/models/organizerModel.js:65-68 | a SET list with distinct columns leaves each named column holding its bound value, with '' as NULL, and every other column unchanged |
| Store.SetAllRebound | server/models/organizerModel.js:65-68 | after the key binds override the body's values, a key column named in the SET list is written with the key's own value, and every other column is as SetAllWritesNamedColumns states |
| Store.UnreachableLooksEmpty | server/models/organizerModel.js:38-40 | a list operation that cannot connect returns the same empty list as an empty table |
| Store.Database.constructor | server/dbsetup.js:187-190 | freshly created tables are empty and satisfy every constraint |
| Store.Database.InsertOrganizer | server/dbsetup.js:42-48 | an ORGANIZER row is appended exactly when its id and its (name, phone) pair are new; otherwise UNIQUE is violated and the table is unchanged |
| Store.Database.InsertEvent | server/dbsetup.js:52-60 | an EVENT row is appended exactly when its id is new and its organizer exists; otherwise the error is UNIQUE (a taken id comes first) or FOREIGN KEY |
| Store.Database.InsertTeamMember | server/dbsetup.js:64-72 | a TEAM_MEMBER row is appended exactly when its (name, phone) key is new and its organizer, if any, exists |
| Store.Database.InsertFeedback | server/dbsetup.js:128-134 | a FEEDBACK row is appended exactly when its id is new and its event, if any, exists |
| Store.Database.InsertParticipant | server/dbsetup.js:146-153 | a PARTICIPANT row is appended exactly when its id and its (name, email) pair are new |
| Store.Database.InsertEvents | server/dbsetup.js:200-205 | the EVENT inserts take every row exactly when ids stay unique and organizers exist; otherwise they take a strict prefix |
| Store.Database.InsertTeamMembers | server/dbsetup.js:208-210 | as InsertEvents, for TEAM_MEMBER |
| Store.Database.InsertSpeakers | server/dbsetup.js:213 | as InsertEvents, for SPEAKER and its team-member parent |
| Store.Database.InsertPhotographers | server/dbsetup.js:216 | as InsertEvents, for PHOTOGRAPHER |
| Store.Database.InsertVolunteers | server/dbsetup.js:219 | as InsertEvents, for VOLUNTEER |
| Store.Database.InsertSponsors | server/dbsetup.js:222-227 | the SPONSOR inserts take every row exactly when the keys stay unique |
| Store.Database.InsertSupports | server/dbsetup.js:230-237 | as InsertEvents, for SPONSOR_SUPPORT and its event and sponsor parents |
| Store.Database.InsertFeedbacks | server/dbsetup.js:240-248 | as InsertEvents, for FEEDBACK |
| Store.Database.InsertPhotos | server/dbsetup.js:251 | as InsertEvents, for EVENT_PHOTO |
| Store.Database.InsertAttendance | server/dbsetup.js:258-259 | as InsertEvents, for ATTENDANCE and its event and participant parents |
| Store.Database.InsertLocations | server/dbsetup.js:262-264 | the LOCATION inserts take every row exactly when the addresses stay unique |
| Store.Database.InsertEventLocations | server/dbsetup.js:267-270 | as InsertEvents, for EVENT_AND_LOCATION |
| Store.Database.WriteEvent | server/models/eventModel.js:307-309 | rewriting one EVENT row in place, keeping its id and naming an existing organizer, keeps every constraint |
| Store.Database.DeleteEventRow | server/models/eventModel.js:323-324 | deleting an event that nothing references removes exactly that row and its id |
| Store.Database.WriteOrganizer | server/models/organizerModel.js:66-68 | rewriting one ORGANIZER row with its id kept and a (name, phone) pair no other row has keeps every constraint |
| Store.Database.DeleteOrganizerRow | server/models/organizerModel.js:81-82 | deleting an organizer with no events and no team members removes exactly that row |
| Store.Database.WriteFeedback | server/models/feedbackModel.js:65-67 | rewriting one FEEDBACK row with its id kept and an existing event keeps every constraint |
| Store.Database.DeleteFeedbackRow | server/models/feedbackModel.js:80-81 | deleting a FEEDBACK row always keeps every constraint and removes exactly that id |
| Store.Database.WriteTeamMember | server/models/teamMemberModel.js:68-70 | rewriting one TEAM_MEMBER row with its key kept and an existing organizer keeps every constraint |
| Store.Database.DeleteTeamMemberRow | server/models/teamMemberModel.js:84-86 | deleting a member with no roles removes exactly that key |
| Setup.SetupDatabase | server/dbsetup.js:4-283 | the script succeeds exactly when its drop block and create loop succeed on the starting catalog; it then leaves every table existing, every constraint holding and exactly the sample rows stored |
| Setup.SetupSucceedsOnEmptyOrFull | server/dbsetup.js:15-35 | a first run (no tables) and a rerun (every table) both succeed |
| Setup.SetupFailsOnPartialCatalog | server/dbsetup.js:15-35 | a catalog holding only ORGANIZER makes the script fail: the drop block stops at the first missing table, and CREATE TABLE ORGANIZER then clashes |
| Setup.SeedSampleData | server/dbsetup.js:195-274 | on empty tables every sample INSERT succeeds, and the tables then hold exactly the sample rows with all constraints kept |
| Setup.SeedOrganizersAndEvents | server/dbsetup.js:195-205 | the ORGANIZER and EVENT inserts all succeed and store exactly the sample rows |
| Setup.SeedTeam | server/dbsetup.js:208-219 | the team-member and role inserts all succeed and store exactly the sample rows |
| Setup.SeedSponsorship | server/dbsetup.js:222-237 | the sponsor and sponsorship inserts all succeed |
| Setup.SeedFeedbackAndPhotos | server/dbsetup.js:240-251 | the feedback and photo inserts all succeed |
| Setup.SeedParticipants | server/dbsetup.js:254-259 | the participant and attendance inserts all succeed |
| Setup.SeedLocations | server/dbsetup.js:262-270 | the location inserts all succeed |
| Setup.SeedEventDetails | server/dbsetup.js:222-270 | every insert that hangs off the sample events succeeds |
| Setup.SampleOrganizerIds | server/dbsetup.js:195-197 | the sample organizers have ids 1, 2 and 3 |
| Setup.SampleEventIds | server/dbsetup.js:200-205 | the sample events have ids 101 to 106 |
| Setup.SampleMemberKeys | server/dbsetup.js:208-210 | the three sample team members have distinct keys |
| Setup.SampleSponsorKeys | server/dbsetup.js:222-227 | the six sample sponsors have distinct keys |
| Setup.SampleParticipantIds | server/dbsetup.js:254-255 | the sample participants have ids 501 and 502 |
| Setup.SampleAddresses | server/dbsetup.js:262-264 | the three sample locations have distinct addresses |
| Setup.SampleEventsFit | server/dbsetup.js:200-205 | the sample events have unique ids and name existing organizers |
| Setup.SampleTeamMembersFit | server/dbsetup.js:208-210 | the sample members have unique keys and name existing organizers |
| Setup.SampleRolesFit | server/dbsetup.js:213-219 | each sample role names an existing team member |
| Setup.SampleSponsorsFit | server/dbsetup.js:222-227 | the sample sponsors have unique keys |
| Setup.SampleSupportsFit | server/dbsetup.js:230-237 | each sponsorship has a unique (event, sponsor, type) key and existing parents |
| Setup.SampleFeedbackFit | server/dbsetup.js:240-248 | the sample feedback has unique ids and names existing events |
| Setup.SamplePhotosFit | server/dbsetup.js:251 | the sample photo names an existing event |
| Setup.SampleAttendanceFit | server/dbsetup.js:258-259 | each attendance row names an existing event and participant |
| Setup.SampleLocationsFit | server/dbsetup.js:262-264 | the sample addresses are unique |
| Setup.SampleEventLocationsFit | server/dbsetup.js:267-270 | each event-location row names an existing event and location |
| Setup.SampleRolesDisjoint | server/dbsetup.js:213-219 | no sample member holds two roles |
| Setup.SampleEventLocationsCopyEvents | server/dbsetup.js:267-270 | each event-location row repeats its event's date, expense and time |
| Setup.OnlyGoogleGaveEveryType | server/dbsetup.js:230-237 | across the sample sponsorships, Google alone gave every sponsorship type |
| Events.IsoOrEpoch | server/models/eventModel.js:34 | `new Date(EventDate).toISOString()` shows a stored day as that day, and a NULL date as the epoch |
| Events.IsoOrNull | server/models/eventModel.js:142 | the high-rated report shows a NULL date as null rather than the epoch |
| Events.AddEvent | server/models/eventModel.js:188-250 | adding an event returns `AddEventResult`'s decision on the old tables, and appends exactly the new row when it succeeds |
| Events.AddEventSucceedsIff | server/models/eventModel.js:188-250 | an event is added exactly when the store is reachable, every validation passes, the organizer exists, the id is new, the date is on the calendar and the name is a string |
| Events.ValidationOrder | server/models/eventModel.js:194-216 | each validation error is reported only after every earlier check passed; validation passes exactly when all six checks pass, the name being at most 50 UTF-16 code units |
| Events.AstralNameTooLong | server/models/eventModel.js:214-216 | a name of 26 characters above U+FFFF is 52 code units long, so `addEvent` reports it too long and `updateEvent` rejects it |
| Events.ZeroIdIsMissing | server/models/eventModel.js:194-196 | a zero EventID or OrganizerID is reported as missing |
| Events.ExpenseChecks | server/models/eventModel.js:194-202 | a zero Expense passes, while an absent one fails the number check |
| Events.ImpossibleDateFailsAtInsert | server/models/eventModel.js:204-244 | a date of the right shape but not on the calendar passes validation and fails in the INSERT |
| Events.ValidateEventUpdate | server/models/eventModel.js:262-298 | the `for...in` validation loop reports the first failing field's error, or none |
| Events.FirstFieldErrorIsFirst | server/models/eventModel.js:262-298 | the update body passes exactly when every field passes, and a reported error is that of a field all of whose predecessors pass |
| Events.FieldErrorAllowList | server/models/eventModel.js:263-296 | a field outside the updatable columns is refused by name, EventID among them; EventDate is never checked |
| Events.DateColumn | server/models/eventModel.js:302 | a date the UPDATE stores is a calendar date, whether it was sent as YYYY-MM-DD or as the full instant the TO_TIMESTAMP mask describes |
| Events.ShownDateWritesBack | server/models/eventModel.js:34-302 | a stored day shown by the lookups as its ISO instant can be sent back as EventDate, and the update stores that same day |
| Events.SetColumn | server/models/eventModel.js:300-307 | assigning one column writes its stored value and leaves every other column |
| Events.SetColumnsWritesNamedColumns | server/models/eventModel.js:300-308 | the SET list writes each named column with its stored value, keeps every other column, and never changes EventID |
| Events.UpdateEvent | server/models/eventModel.js:254-318 | the update returns `UpdateEventResult`'s outcome on the old tables; when one row is updated, exactly that row becomes its SET-list image, and otherwise nothing changes |
| Events.ValidationPrecedesStore | server/models/eventModel.js:257-298 | an empty body or an invalid field is refused before the store is touched, whatever the tables and the connection |
| Events.UnknownEventUpdatesNothing | server/models/eventModel.js:307-309 | a valid update of an absent event affects no row |
| Events.EventDateNeverValidated | server/models/eventModel.js:263 | a numeric EventDate passes validation and fails in TO_TIMESTAMP |
| Events.DeleteEvent | server/models/eventModel.js:320-331 | the delete refuses when the store is down or rows still reference the event; otherwise it removes exactly the row with the id and reports 0 or 1 |
| Events.AllEvents | server/models/eventModel.js:26-43 | the list holds one view per stored event, in order, or nothing when the store is down |
| Events.EventById | server/models/eventModel.js:46-71 | the lookup finds no event exactly when no row has the id, and a found view is that of the row with the id |
| Events.EventByIdAgreesWithAllEvents | server/models/eventModel.js:26-71 | a dated event found by id is the one the full list shows |
| Events.Ratings | server/models/eventModel.js:78-81 | the ratings joined to an event are exactly the non-NULL ratings of its feedback |
| Events.Average | server/models/eventModel.js:78 | AVG(F.Rating) is NULL exactly when the event has no non-NULL rating |
| Events.SumBounds | server/models/eventModel.js:78 | a sum of ratings lies between the count times the lowest and the count times the highest |
| Events.AverageWithinRatings | server/models/eventModel.js:78 | an average rating lies between the lowest and highest rating |
| Events.Shown | server/models/eventModel.js:118 | an average of zero or NULL is shown as null, any other as itself |
| Events.OrganizerNameOf | server/models/eventModel.js:80 | the LEFT JOIN finds a name only from an organizer with the id |
| Events.OrganizerNameOfUnique | server/models/eventModel.js:80 | with unique organizer ids, the join finds that organizer's own name |
| Events.GetEventSummaries | server/models/eventModel.js:75-124 | the report holds exactly one row per event that satisfies the filters, and no event twice |
| Events.SummaryRowsAreKeptEvents | server/models/eventModel.js:97-120 | the GROUP BY rows are exactly the summaries of the kept events, without repeats |
| Events.KeepMeansFilters | server/models/eventModel.js:83-105 | the WHERE and HAVING clauses the code assembles keep an event exactly when it meets the filters |
| Events.UnfilteredSummaries | server/models/eventModel.js:87-95 | without filters every event is reported, with a null average when it has no rating |
| Events.ZeroMinimumDropsUnrated | server/models/eventModel.js:87-89 | a minimum rating given as the text "0" is truthy, so it drops every event without a rating, which the unfiltered report keeps |
| Events.HighRated | server/models/eventModel.js:126-153 | the report lists exactly the events with some rating whose average exceeds the threshold |
| Events.HighRatedAreRatedSummaries | server/models/eventModel.js:126-153 | every high-rated event is also in the summary report filtered by that minimum |
| Events.EventsByOrganizerAndName | server/models/eventModel.js:155-186 | the search lists exactly the events of the organizer (if given) whose name contains the text, ignoring case (if given) |
| Events.UnfilteredSearchListsAll | server/models/eventModel.js:155-186 | a search without organizer and text lists every event |
| Organizers.FailureReadsAsNoOrganizers | server/models/organizerModel.js:26-41 | the list is the table, or empty when the store is down |
| Organizers.NewOrganizerRow | server/models/organizerModel.js:46-51 | the inserted row holds the given id and email, with an empty name or phone stored as NULL |
| Organizers.AddOrganizer | server/models/organizerModel.js:43-60 | adding returns `AddOrganizerResult`'s outcome on the old table and appends exactly the new row when it succeeds |
| Organizers.AddOrganizerSucceedsIff | server/models/organizerModel.js:43-60 | an organizer is added exactly when the store is reachable, an id and a non-empty email are given, and neither the id nor the (name, phone) pair is taken |
| Organizers.UnnamedOrganizersNeverClash | server/dbsetup.js:47 | organizers with no name and no phone never clash on UNIQUE (name, phone) |
| Organizers.AssignWritesOneColumn | server/models/organizerModel.js:65 | assigning one column changes that column alone |
| Organizers.UpdateWritesSuppliedColumns | server/models/organizerModel.js:65-67 | the updated row keeps its id whatever the body says, holds each other supplied value, and keeps the rest |
| Organizers.UpdateOrganizer | server/models/organizerModel.js:62-76 | the update returns `UpdateOrganizerResult`'s outcome on the old table; one updated row becomes its SET-list image, and otherwise nothing changes |
| Organizers.UpdateRow | server/models/organizerModel.js:66-68 | the UPDATE of the matching row returns its outcome and writes the row only on success |
| Organizers.TakenPairRefused | server/dbsetup.js:47 | updating an organizer to another's (name, phone) pair is refused by UNIQUE |
| Organizers.EmptyUpdateFailsInStore | server/models/organizerModel.js:65-66 | an empty body yields an empty SET list, which the store refuses |
| Organizers.UnknownOrganizerUpdatesNothing | server/models/organizerModel.js:66-68 | a well-formed update of an absent organizer affects no row |
| Organizers.DeleteOrganizer | server/models/organizerModel.js:78-98 | the delete returns ORA-02292 as a refusal when events or team members reference the organizer, rethrows any other error, and otherwise removes exactly that row |
| Organizers.ReferencedOrganizerExists | server/dbsetup.js:59 | an organizer with dependents is stored |
| Feedback.FailureReadsAsNoFeedback | server/models/feedbackModel.js:25-40 | the list is the table, or empty when the store is down |
| Feedback.NewFeedbackRow | server/models/feedbackModel.js:45-49 | the inserted row holds the given values, with an empty comment as NULL |
| Feedback.AddFeedback | server/models/feedbackModel.js:42-59 | adding returns `AddFeedbackResult`'s outcome on the old table and appends exactly the new row when it succeeds |
| Feedback.AnyRatingIsStored | server/models/feedbackModel.js:42-59 | the rating plays no part in whether feedback is added |
| Feedback.OutOfRangeRatingAdded | server/dbsetup.js:131 | ratings of -7 and 100 are stored as given |
| Feedback.AssignWritesOneColumn | server/models/feedbackModel.js:64 | assigning one column changes that column alone |
| Feedback.UpdateWritesSuppliedColumns | server/models/feedbackModel.js:64-66 | the updated row keeps its id, holds each other supplied value, and keeps the rest |
| Feedback.UpdateFeedback | server/models/feedbackModel.js:61-75 | the update returns `UpdateFeedbackResult`'s outcome on the old tables; one updated row becomes its SET-list image, and otherwise nothing changes |
| Feedback.UpdateRow | server/models/feedbackModel.js:65-67 | the UPDATE of the matching row returns its outcome and writes the row only on success |
| Feedback.MoveToMissingEventRefused | server/dbsetup.js:133 | moving feedback to an absent event is refused by the FOREIGN KEY |
| Feedback.DeleteFeedbackResult | server/models/feedbackModel.js:77-97 | the ORA-02292 refusal never happens, and a reachable store always deletes |
| Feedback.DeleteFeedback | server/models/feedbackModel.js:77-97 | the delete returns `DeleteFeedbackResult`'s outcome and removes exactly the row with the id |
| Feedback.DeletedCountsTheRow | server/models/feedbackModel.js:80-82 | one row is reported deleted exactly when a row had the id |
| TeamMembers.FailureReadsAsNoMembers | server/models/teamMemberModel.js:26-42 | the list is the table, or empty when the store is down |
| TeamMembers.NewMemberRow | server/models/teamMemberModel.js:47-51 | the inserted row has the given (name, phone) key and the given other values, with an empty email as NULL |
| TeamMembers.AddTeamMember | server/models/teamMemberModel.js:44-61 | adding returns `AddTeamMemberResult`'s outcome on the old tables and appends exactly the new row when it succeeds |
| TeamMembers.SameNameOtherPhoneAdded | server/dbsetup.js:70 | a second member with an existing name but a new phone is added |
| TeamMembers.AssignWritesOneColumn | server/models/teamMemberModel.js:67 | assigning one column changes that column alone |
| TeamMembers.UpdateWritesSuppliedColumns | server/models/teamMemberModel.js:67-69 | the updated row keeps its key whatever the body says, holds each other supplied value, and keeps the rest |
| TeamMembers.UpdateTeamMember | server/models/teamMemberModel.js:64-78 | the update returns `UpdateTeamMemberResult`'s outcome on the old tables; one updated row becomes its SET-list image, and otherwise nothing changes |
| TeamMembers.UpdateRow | server/models/teamMemberModel.js:68-70 | the UPDATE of the matching row returns its outcome and writes the row only on success |
| TeamMembers.KeyColumnsCannotChange | server/models/teamMemberModel.js:69 | a body that renames a member succeeds but leaves the key as it was |
| TeamMembers.DeleteTeamMember | server/models/teamMemberModel.js:81-95 | the delete never throws: the store's errors are returned; an empty name or phone matches nothing; otherwise exactly the matching member is removed unless a role references it |
| TeamMembers.RoleHasExactlyOneMember | server/dbsetup.js:81 | every speaker, photographer and volunteer row has exactly one team member |

## Left out

- Connections, logging, `autoCommit`, and closing connections are not modelled. A failed connection is the `reachable` parameter, and a statement either fully applies or changes nothing.
- The SQL text is not modelled. Each statement is modelled by its effect on the tables, and the text that setParts builds is read as the column list it names.
- Bind names are matched exactly as the columns are declared, so the case-insensitive spelling of the WHERE binds is not modelled.
- Organizers.UpdateOrganizer: a SET column is matched against its declared spelling. Oracle folds an unquoted identifier to upper case, so a body key such as `organizerName` names the same column; the model answers ORA-00904 (InvalidIdentifier) there. A SET value for an INTEGER column is an integer: a fractional number, which Oracle rounds, is not an input of this model.
- Feedback.UpdateFeedback: a SET column is matched against its declared spelling, so a body key such as `rating` is answered with ORA-00904 where Oracle would write RATING. A SET value for an INTEGER column is an integer: a fractional number, which Oracle rounds, is not an input of this model.
- TeamMembers.UpdateTeamMember: a SET column is matched against its declared spelling, so a body key such as `payRate` is answered with ORA-00904 where Oracle would write PAYRATE. A SET value for an INTEGER column is an integer: a fractional number, which Oracle rounds, is not an input of this model.
- Organizers.AddOrganizer: the OrganizerID given is an integer. A fractional number, which Oracle rounds into the INTEGER column as `JsValues.OracleRound` states for Expense, is not an input of this model.
- Feedback.AddFeedback: FeedbackID, EventID and Rating are integers. A fractional Rating such as 4.5, which Oracle stores rounded (5), is not an input of this model.
- TeamMembers.AddTeamMember: OrganizerID and PayRate are integers. A fractional PayRate, which Oracle stores rounded, is not an input of this model.
- `toISOString` formatting, time zones, and the time of day in a stored DATE are not modelled. A stored date is its `YYYY-MM-DD` text.
- `toFixed(1)` rounding of averages is not modelled: `Events.Shown` keeps the exact average.
- Floating point is not modelled. Numbers are reals, and NaN, Infinity, objects and arrays are not JavaScript values here.
- `LIKE` wildcards inside a search text and `UPPER` on non-ASCII letters are not modelled: the text is matched literally, and only ASCII letters change case.
- The summary filters are typed (a number and a string): the text spliced into the WHERE and HAVING clauses, and `parseInt` leniency on the search's organizer id, are not modelled.
- Events.AddEventResult: a non-string EventName that passes validation is refused by the store as a type error. Oracle's implicit conversion of a number to text is not modelled.
- Oracle's implicit conversions are not modelled: a value of the other type for a column is refused as ORA-00932 (`Store.Fits`).
- Events.DateColumn: TO_TIMESTAMP's lenient readings are not modelled. An instant cut short (`2024-12-15T18:00`), single-digit months or days, and other separators are refused; only a `YYYY-MM-DD` calendar date, alone or as the full `toISOString` instant, is stored. Signed and six-digit ISO years are not modelled.
- Events.UpdateEvent: an EventDate in one of the lenient forms under Events.DateColumn is refused with InvalidDateValue, where Oracle would store it.
- Column widths, VARCHAR limits, and CHAR padding of phone numbers and times are not modelled.
- The order of errors when several fields fail an UPDATE is fixed as type first, then NOT NULL, then UNIQUE, then FOREIGN KEY. The store's own choice, and the exact error of an empty SET list, are not modelled beyond that.
- Rows whose key columns hold the empty string cannot exist (Oracle stores NULL), so they are not considered.
- Expense and EventTime are never written NULL by an event update, because validation rejects non-numbers and non-times.
- Row order in query results is the stored order; ORDER BY is absent from the source, so the database's order is not modelled.
- Error message texts are not modelled: each refusal is a named outcome.
- `connection.rollback()` in the setup script's catch, and `process.exit`, are not modelled: a failed setup is the `ok = false` outcome.
- The sponsor, participant and photo models, `eventsModel.js`, `dbsetup_old.js`, `databaseModel.js`, the controllers, the routes, `server.js` and the browser script are not part of this model.
