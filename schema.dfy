/** The fourteen tables of the event database, the foreign keys their
    CREATE TABLE statements declare, and the drop-then-create sequence the
    setup script runs against the catalog of existing tables. */
module Schema {

  datatype Table =
    | Organizer | Event | TeamMember | Speaker | Photographer | Volunteer
    | Sponsor | SponsorSupport | Feedback | EventPhoto | Participant
    | Attendance | Location | EventAndLocation

  /** The tables a table's FOREIGN KEY clauses reference. */
  function ForeignKeys(t: Table): set<Table> {
    match t
    case Organizer => {}
    case Event => {Organizer}
    case TeamMember => {Organizer}
    case Speaker => {TeamMember}
    case Photographer => {TeamMember}
    case Volunteer => {TeamMember}
    case Sponsor => {}
    case SponsorSupport => {Event, Sponsor}
    case Feedback => {Event}
    case EventPhoto => {Event}
    case Participant => {}
    case Attendance => {Event, Participant}
    case Location => {}
    case EventAndLocation => {Event, Location}
  }

  /** The order of `tablesToCreate`. */
  const CreateOrder: seq<Table> := [
    Organizer, Event, TeamMember, Speaker, Photographer, Volunteer, Sponsor,
    SponsorSupport, Feedback, EventPhoto, Participant, Attendance, Location,
    EventAndLocation
  ]

  /** The order of the DROP TABLE statements. */
  const DropOrder: seq<Table> := [
    EventAndLocation, Location, Attendance, Participant, EventPhoto, Feedback,
    SponsorSupport, Sponsor, Volunteer, Photographer, Speaker, TeamMember,
    Event, Organizer
  ]

  function Elems(s: seq<Table>): set<Table> {
    set t | t in s
  }

  lemma ElemsSnoc(s: seq<Table>, t: Table)
    ensures Elems(s + [t]) == Elems(s) + {t}
  {
  }

  /** CREATE TABLE succeeds when the table does not exist yet and every table
      it references does. */
  predicate CanCreate(catalog: set<Table>, t: Table) {
    t !in catalog && ForeignKeys(t) <= catalog
  }

  /** DROP TABLE succeeds when the table exists and no other existing table
      references it. */
  predicate CanDrop(catalog: set<Table>, t: Table) {
    t in catalog && forall u :: u in catalog && u != t ==> t !in ForeignKeys(u)
  }

  ghost predicate CreatableInOrder(catalog: set<Table>, order: seq<Table>) {
    forall i :: 0 <= i < |order| ==> CanCreate(catalog + Elems(order[..i]), order[i])
  }

  /** Every table comes after every table its foreign keys reference. */
  ghost predicate ParentsFirst(order: seq<Table>) {
    forall i, j :: 0 <= i < |order| && 0 <= j < |order| && order[j] in ForeignKeys(order[i]) ==> j < i
  }

  /** Every table comes before every table it is referenced by. */
  ghost predicate ChildrenFirst(order: seq<Table>) {
    forall i, j :: 0 <= i < |order| && 0 <= j < |order| && order[j] in ForeignKeys(order[i]) ==> i < j
  }

  ghost predicate Distinct(order: seq<Table>) {
    forall i, j :: 0 <= i < j < |order| ==> order[i] != order[j]
  }

  /** The `for` loop over `tablesToCreate`: each CREATE runs in turn and the
      first one that fails raises, ending the loop. */
  method CreateTables(catalog: set<Table>, order: seq<Table>) returns (result: set<Table>, ok: bool)
    ensures ok <==> CreatableInOrder(catalog, order)
    ensures ok ==> result == catalog + Elems(order)
    ensures !ok ==> exists k :: 0 <= k < |order| && result == catalog + Elems(order[..k]) &&
                               !CanCreate(result, order[k])
  {
    result := catalog;
    var i := 0;
    while i < |order| && CanCreate(result, order[i])
      invariant 0 <= i <= |order|
      invariant result == catalog + Elems(order[..i])
      invariant forall k :: 0 <= k < i ==> CanCreate(catalog + Elems(order[..k]), order[k])
    {
      assert order[..i + 1] == order[..i] + [order[i]];
      ElemsSnoc(order[..i], order[i]);
      result := result + {order[i]};
      i := i + 1;
    }
    ok := i == |order|;
    if ok {
      assert order[..i] == order;
    } else {
      assert !CanCreate(catalog + Elems(order[..i]), order[i]);
    }
  }

  /** The drop statements of `order` run against `catalog` and the first
      `k` of them succeed: `k` is where the block stops. */
  ghost predicate DropRun(catalog: set<Table>, order: seq<Table>, k: int) {
    && 0 <= k <= |order|
    && (forall j :: 0 <= j < k ==> CanDrop(catalog - Elems(order[..j]), order[j]))
    && (k < |order| ==> !CanDrop(catalog - Elems(order[..k]), order[k]))
  }

  /** The PL/SQL block of DROP TABLE statements. Dropping a missing table
      raises ORA-00942, which the handler swallows, so the block ends quietly
      there; any other failure (a table still referenced, ORA-02449) is
      re-raised. */
  method DropTables(catalog: set<Table>, order: seq<Table>) returns (result: set<Table>, ok: bool)
    ensures exists k :: (DropRun(catalog, order, k) && result == catalog - Elems(order[..k]) &&
                         (ok <==> k == |order| || order[k] !in result))
  {
    result := catalog;
    var i := 0;
    while i < |order| && CanDrop(result, order[i])
      invariant 0 <= i <= |order|
      invariant result == catalog - Elems(order[..i])
      invariant forall j :: 0 <= j < i ==> CanDrop(catalog - Elems(order[..j]), order[j])
    {
      assert order[..i + 1] == order[..i] + [order[i]];
      ElemsSnoc(order[..i], order[i]);
      result := result - {order[i]};
      i := i + 1;
    }
    ok := i == |order| || order[i] !in result;
    assert DropRun(catalog, order, i);
  }

  /** A run stops at one place only. */
  lemma DropRunUnique(catalog: set<Table>, order: seq<Table>, k: int, k': int)
    requires DropRun(catalog, order, k) && DropRun(catalog, order, k')
    ensures k == k'
  {
  }

  /** Rank of a table in `tablesToCreate`. */
  function Rank(t: Table): nat {
    match t
    case Organizer => 0
    case Event => 1
    case TeamMember => 2
    case Speaker => 3
    case Photographer => 4
    case Volunteer => 5
    case Sponsor => 6
    case SponsorSupport => 7
    case Feedback => 8
    case EventPhoto => 9
    case Participant => 10
    case Attendance => 11
    case Location => 12
    case EventAndLocation => 13
  }

  lemma RankIndexesCreateOrder(i: int)
    requires 0 <= i < |CreateOrder|
    ensures Rank(CreateOrder[i]) == i
  {
  }

  /** Every table of `tablesToCreate` appears after all tables its FOREIGN
      KEYs reference, and each appears once. */
  lemma CreateOrderHasParentsFirst()
    ensures ParentsFirst(CreateOrder) && Distinct(CreateOrder)
  {
    forall i, j | 0 <= i < |CreateOrder| && 0 <= j < |CreateOrder| && CreateOrder[j] in ForeignKeys(CreateOrder[i])
      ensures j < i
    {
      RankIndexesCreateOrder(i);
      RankIndexesCreateOrder(j);
    }
    forall i, j | 0 <= i < j < |CreateOrder| ensures CreateOrder[i] != CreateOrder[j] {
      RankIndexesCreateOrder(i);
      RankIndexesCreateOrder(j);
    }
  }

  /** An order of distinct tables with parents first creates cleanly on an
      empty catalog. */
  lemma ParentsFirstCreates(order: seq<Table>)
    requires ParentsFirst(order) && Distinct(order)
    requires forall t :: t in order ==> ForeignKeys(t) <= Elems(order)
    ensures CreatableInOrder({}, order)
  {
    forall i | 0 <= i < |order| ensures CanCreate({} + Elems(order[..i]), order[i]) {
      forall u | u in ForeignKeys(order[i]) ensures u in Elems(order[..i]) {
        assert u in Elems(order);
        var j :| 0 <= j < |order| && order[j] == u;
        assert order[..i][j] == u;
      }
      forall x | x in order[..i] ensures x != order[i] {
        var j :| 0 <= j < i && order[..i][j] == x;
        assert order[j] == x;
      }
    }
  }

  /** The drop sequence is `tablesToCreate` reversed. */
  lemma DropOrderReversesCreateOrder()
    ensures |DropOrder| == |CreateOrder|
    ensures forall i :: 0 <= i < |DropOrder| ==> DropOrder[i] == CreateOrder[|CreateOrder| - 1 - i]
  {
  }

  /** The drop block drops every referencing table before the table it
      references. */
  lemma DropOrderHasChildrenFirst()
    ensures ChildrenFirst(DropOrder) && Distinct(DropOrder)
  {
    DropOrderReversesCreateOrder();
    CreateOrderHasParentsFirst();
    var n := |CreateOrder|;
    forall i, j | 0 <= i < n && 0 <= j < n && DropOrder[j] in ForeignKeys(DropOrder[i]) ensures i < j {
      assert CreateOrder[n - 1 - j] in ForeignKeys(CreateOrder[n - 1 - i]);
    }
    forall i, j | 0 <= i < j < n ensures DropOrder[i] != DropOrder[j] {
      assert CreateOrder[n - 1 - j] != CreateOrder[n - 1 - i];
    }
  }

  lemma CreateOrderHasEveryTable(t: Table)
    ensures t in Elems(CreateOrder) && t in Elems(DropOrder)
  {
    assert CreateOrder[Rank(t)] == t;
    assert DropOrder[13 - Rank(t)] == t;
  }

  /** On an empty catalog, `tablesToCreate` creates every table. */
  lemma CreateOrderCreatesAll()
    ensures CreatableInOrder({}, CreateOrder)
  {
    CreateOrderHasParentsFirst();
    forall t | t in CreateOrder ensures ForeignKeys(t) <= Elems(CreateOrder) {
      forall u | u in ForeignKeys(t) ensures u in Elems(CreateOrder) {
        CreateOrderHasEveryTable(u);
      }
    }
    ParentsFirstCreates(CreateOrder);
  }

  /** On a catalog holding every table, the drop block drops all of them
      without error. */
  lemma {:induction false} DropOrderDropsAll(catalog: set<Table>)
    requires forall t :: t in catalog
    ensures forall j :: 0 <= j < |DropOrder| ==> CanDrop(catalog - Elems(DropOrder[..j]), DropOrder[j])
    ensures catalog - Elems(DropOrder) == {}
  {
    DropOrderHasChildrenFirst();
    forall j | 0 <= j < |DropOrder| ensures CanDrop(catalog - Elems(DropOrder[..j]), DropOrder[j]) {
      var c := catalog - Elems(DropOrder[..j]);
      var t := DropOrder[j];
      forall x | x in DropOrder[..j] ensures x != t {
        var k :| 0 <= k < j && DropOrder[..j][k] == x;
        assert DropOrder[k] == x;
      }
      forall u | u in c && u != t ensures t !in ForeignKeys(u) {
        CreateOrderHasEveryTable(u);
        var k :| 0 <= k < |DropOrder| && DropOrder[k] == u;
        forall k' | 0 <= k' < j ensures DropOrder[k'] != u {
          assert DropOrder[..j][k'] == DropOrder[k'];
        }
      }
    }
    forall t ensures t !in catalog - Elems(DropOrder) {
      CreateOrderHasEveryTable(t);
    }
  }

  /** No table declares a foreign key to FEEDBACK, so nothing can block a
      feedback row's deletion. */
  lemma NothingReferencesFeedback(t: Table)
    ensures Feedback !in ForeignKeys(t)
  {
  }
}
