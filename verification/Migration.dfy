// The migration from card ids to logical card identity
// (migrations/002_card_logical_identity.sql).

module Migration {
  import opened Prelude
  import opened ServerSpec
  import opened ServerRuns

  /** A row of the old table, under its row id: a UUID, of which only the order matters. */
  datatype Row = Row(key: CardKey, card: Card)

  /** The cards table of one user. */
  class CardTable {
    var rows: map<int, Row>

    constructor (initial: map<int, Row>)
      ensures rows == initial
    {
      rows := initial;
    }

    /** DELETE ... USING: one statement, so every row is judged against the same snapshot. */
    method Deduplicate()
      modifies this
      ensures rows == Deduplicated(old(rows))
    {
      rows := map id | id in rows && !(exists d <- rows.Keys :: Outranks(rows, d, id)) :: rows[id];
    }
  }

  /** Row `d` is a later version of the logical card in row `c`. */
  predicate Outranks(rows: map<int, Row>, d: int, c: int)
    requires d in rows && c in rows
  {
    && rows[c].key == rows[d].key && rows[c].key.guid != ""
    && (rows[c].card.modifiedAt < rows[d].card.modifiedAt
        || (rows[c].card.modifiedAt == rows[d].card.modifiedAt && c < d))
  }

  function Deduplicated(rows: map<int, Row>): map<int, Row> {
    map id | id in rows && !(exists d <- rows.Keys :: Outranks(rows, d, id)) :: rows[id]
  }

  /** The partial unique index the migration then creates. */
  ghost predicate UniqueKeys(rows: map<int, Row>) {
    forall i, j :: i in rows && j in rows && rows[i].key == rows[j].key && rows[i].key.guid != "" ==> i == j
  }

  /** Not later than row `top`, by (modified_at, id). */
  predicate AtMost(rows: map<int, Row>, id: int, top: int)
    requires id in rows && top in rows
  {
    || rows[id].card.modifiedAt < rows[top].card.modifiedAt
    || (rows[id].card.modifiedAt == rows[top].card.modifiedAt && id <= top)
  }

  /** Every group has a greatest row. */
  lemma {:induction false} GreatestOf(rows: map<int, Row>, group: set<int>) returns (top: int)
    requires group != {} && forall i :: i in group ==> i in rows
    ensures top in group && forall i :: i in group ==> AtMost(rows, i, top)
    decreases group
  {
    var x := Member(group);
    top := x;
    if group != {x} {
      var y := GreatestOf(rows, group - {x});
      assert forall i :: i in group ==> i == x || i in group - {x};
      if AtMost(rows, x, y) { top := y; }
    }
  }

  function Group(rows: map<int, Row>, key: CardKey): set<int> {
    set i | i in rows && rows[i].key == key
  }

  /** No row of the same logical card is later. */
  ghost predicate IsGreatest(rows: map<int, Row>, id: int)
    requires id in rows
  {
    forall j :: j in Group(rows, rows[id].key) ==> AtMost(rows, j, id)
  }

  ghost predicate IsKept(rows: map<int, Row>, key: CardKey, id: int) {
    id in Deduplicated(rows) && rows[id].key == key
  }

  lemma KeptIffGreatest(rows: map<int, Row>, id: int)
    requires id in rows && rows[id].key.guid != ""
    ensures id in Deduplicated(rows) <==> IsGreatest(rows, id)
  {
    var group := Group(rows, rows[id].key);
    if id in Deduplicated(rows) {
      forall j | j in group ensures AtMost(rows, j, id) { assert !Outranks(rows, j, id); }
    } else {
      var d :| d in rows && Outranks(rows, d, id);
      assert d in group && !AtMost(rows, d, id);
    }
  }

  /** No logical card is lost. */
  lemma SomeRowIsKept(rows: map<int, Row>, id: int) returns (top: int)
    requires id in rows
    ensures top in Deduplicated(rows) && rows[top].key == rows[id].key
  {
    if rows[id].key.guid == "" {
      top := id;
    } else {
      assert id in Group(rows, rows[id].key);
      top := GreatestOf(rows, Group(rows, rows[id].key));
      KeptIffGreatest(rows, top);
    }
  }

  lemma KeptRowsAreUnique(rows: map<int, Row>)
    ensures UniqueKeys(Deduplicated(rows))
  {
    forall i, j | i in Deduplicated(rows) && j in Deduplicated(rows) && rows[i].key == rows[j].key && rows[i].key.guid != ""
      ensures i == j
    {
      assert !Outranks(rows, i, j) && !Outranks(rows, j, i);
    }
  }

  /**
   * Of each logical card exactly the greatest row by (modified_at, id) is kept; rows
   * with a blank guid are all kept; and the new unique index can be created.
   */
  lemma MigrationKeepsTheGreatest(rows: map<int, Row>)
    ensures UniqueKeys(Deduplicated(rows))
    ensures forall id :: id in rows && rows[id].key.guid == "" ==> id in Deduplicated(rows)
    ensures forall id :: id in rows && rows[id].key.guid != "" ==>
      (id in Deduplicated(rows) <==> IsGreatest(rows, id))
    ensures forall id :: id in rows ==> exists top :: IsKept(rows, rows[id].key, top)
  {
    KeptRowsAreUnique(rows);
    assert forall id :: id in rows && rows[id].key.guid == "" ==> id in Deduplicated(rows);
    hide Deduplicated;
    hide UniqueKeys;
    hide IsGreatest;
    forall id | id in rows
      ensures rows[id].key.guid != "" ==>
        (id in Deduplicated(rows) <==> IsGreatest(rows, id))
      ensures exists top :: IsKept(rows, rows[id].key, top)
    {
      if rows[id].key.guid != "" { KeptIffGreatest(rows, id); }
      var top := SomeRowIsKept(rows, id);
      assert IsKept(rows, rows[id].key, top);
    }
  }

  // ------------------------------------------------- the server's starting state --

  /** The table under the new index, as the handlers see it. */
  ghost function Indexed(rows: map<int, Row>): map<CardKey, Card>
    requires UniqueKeys(rows)
  {
    map i | i in rows && rows[i].key.guid != "" :: rows[i].key := rows[i].card
  }

  /** No card id of the table is tombstoned. */
  ghost predicate RowsNotDeleted(rows: map<int, Row>, tombstones: map<Ref, int>) {
    forall i :: i in rows ==> CardRef(rows[i].card.cardId) !in tombstones
  }

  /** The identity invariant holds from the migration on, over every later run. */
  lemma MigrationStartsTheInvariant(rows: map<int, Row>, db: Db, h: seq<Event>)
    requires RowsNotDeleted(rows, db.tombstones) && NeverBoth(db.(cards := map[]))
    ensures UniqueKeys(Deduplicated(rows))
    ensures NeverBoth(Run(db.(cards := Indexed(Deduplicated(rows))), h))
  {
    KeptRowsAreUnique(rows);
    var start := db.(cards := Indexed(Deduplicated(rows)));
    hide Run;
    forall r | r in start.tombstones
      ensures !Live(start, r)
    {
      assert !Live(db.(cards := map[]), r);
    }
    RunIdentity(start, h, 0);
  }

  /**
   * The migration itself forgets: under the old constraint UNIQUE(card_id), the id
   * of a removed row is afterwards neither live nor tombstoned.
   */
  lemma RemovedIdsAreForgotten(rows: map<int, Row>, db: Db, id: int)
    requires forall i, j :: i in rows && j in rows && rows[i].card.cardId == rows[j].card.cardId ==> i == j
    requires RowsNotDeleted(rows, db.tombstones)
    requires id in rows && id !in Deduplicated(rows)
    ensures UniqueKeys(Deduplicated(rows))
    ensures var r := CardRef(rows[id].card.cardId);
      !Live(db.(cards := Indexed(Deduplicated(rows))), r) && r !in db.tombstones
  {
    KeptRowsAreUnique(rows);
  }
}
