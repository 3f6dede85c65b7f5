// Whether deletions received from the server are echoed as the client's own, over
// runs of passes (content_sync.py, tombstone_sync.py).

module Echo {
  import opened Prelude
  import opened ServerSpec
  import opened Anki
  import opened Deletes
  import opened Cleaning
  import opened ContentPass
  import Duplicates
  import NoteSync

  /**
   * Within a pass nothing is echoed: of a note the server had lost, it sends no
   * delete; and of a note a tombstone of this pass removed, it sends none for the
   * cards that went with it.
   */
  lemma ServerDeleteIsNotEchoed(l: Local, db: Db, s: Snapshot, cascade: (Local, Ref) -> Taken, p: Pass, s': Snapshot, g: string, cid: int)
    requires LegalPass(s, p, s') && Logs(l, db, s, cascade, p) && NoteRef(g) !in db.records
    ensures NoteRef(g) !in p.sent
    ensures NoteRef(g) in TombstonesForSnapshot(db.tombstones.Keys, s, p.names) && cid in l.cards && ChildOf(l, {NoteRef(g)}, cid) ==>
      CardRef(cid) in p.applied && CardRef(cid) !in p.sent
  {
    ViewIsOfServer(db, p.names, g);
    if NoteRef(g) in TombstonesForSnapshot(db.tombstones.Keys, s, p.names) && cid in l.cards && ChildOf(l, {NoteRef(g)}, cid) {
      assert NoteRef(g) in RefSet(p.order);
      assert ChildOf(l, NoteRefs(RefSet(p.order)), cid);
      assert AppliedByServer(l, p.order, cascade, CardRef(cid));
    }
  }

  lemma ViewIsOfServer(db: Db, names: Option<set<string>>, g: string)
    ensures NoteRef(g) in ViewKeys(db, names) ==> NoteRef(g) in db.records
  {
    var m := ManifestOf(db, None, 0);
    assert NoteRef(g) in m.records ==> NoteRef(g) in db.records;
  }

  /** A note or card that is not there is neither held nor removed. */
  lemma AbsentStaysAway(l: Local, db: Db, s: Snapshot, cascade: (Local, Ref) -> Taken, p: Pass, r: Ref)
    requires Logs(l, db, s, cascade, p) && IsIdentity(r) && NoteSync.DistinctGuids(l.notes) && !HeldBy(l, r)
    ensures r !in p.held && r !in p.applied
  {
    GoneIsRecordedOrTaken(l, p.order, cascade, r);
    OnlyRowsGo(l, p.order, cascade);
    ShrunkHolds(l, AfterTombstones(l, p.order, cascade), r);
    CleanedMeans(l, p.order, cascade, ScopeOf(p.names));
    hide AfterTombstones;
    hide Cleaned;
    hide AppliedByServer;
    hide TakenAlong;
    RepairShrinks(AfterTombstones(l, p.order, cascade), ScopeOf(p.names), r);
  }

  /** What is gone after the tombstones, recorded or taken along, is not held when the pass looks for its own deletes. */
  lemma GoneIsNotHeld(l: Local, db: Db, s: Snapshot, cascade: (Local, Ref) -> Taken, p: Pass, r: Ref)
    requires Logs(l, db, s, cascade, p) && IsIdentity(r) && NoteSync.DistinctGuids(l.notes)
    requires r in p.applied || r in TakenAlong(l, p.order, cascade)
    ensures r !in p.held && HeldBy(l, r)
  {
    GoneIsRecordedOrTaken(l, p.order, cascade, r);
    CleanedMeans(l, p.order, cascade, ScopeOf(p.names));
    hide AfterTombstones;
    hide Cleaned;
    hide AppliedByServer;
    hide TakenAlong;
    RepairShrinks(AfterTombstones(l, p.order, cascade), ScopeOf(p.names), r);
  }

  lemma RepairShrinks(l: Local, scope: set<string>, r: Ref)
    requires (r.NoteRef? || r.CardRef?) && !HeldBy(l, r)
    ensures r !in LocalKeys(Duplicates.Without(l, Duplicates.SupersededCards(l, scope)), scope)
  {
    hide NoteInScope;
    hide CardInScope;
  }

  /**
   * What Anki takes along with a tombstoned card or deck is not in the record, so
   * the very pass sends it for deletion, if and only if its snapshot knew it, the
   * server lists it, and its deletes are approved or within the limits.
   */
  lemma TakenAlongIsEchoedIff(l: Local, db: Db, s: Snapshot, cascade: (Local, Ref) -> Taken, p: Pass, s': Snapshot, r: Ref)
    requires LegalPass(s, p, s') && Logs(l, db, s, cascade, p) && NoteSync.DistinctGuids(l.notes) && r in TakenAlong(l, p.order, cascade)
    ensures r in p.sent <==>
      && r in s.known && r in ViewKeys(db, p.names)
      && (p.approved || Modest(s.known, DeletesToSend(s, p.names, p.held, p.applied, p.view)))
  {
    TakenAreIdentities(l, p.order, cascade);
    GoneIsNotHeld(l, db, s, cascade, p, r);
    GoneIsRecordedOrTaken(l, p.order, cascade, r);
    SomethingCounts(l, db, s, cascade, p, r);
    assert p.view == ViewKeys(db, p.names) && r !in p.applied;
    if !p.approved {
      UnapprovedPassIsRefusedIffImmodest(s, p, s');
    }
    hide Logs;
    hide TakenAlong;
    hide AppliedByServer;
    hide AfterTombstones;
    hide Modest;
    hide NeedsApproval;
    hide ViewKeys;
  }

  /** Without tombstones that count nothing is taken along. */
  lemma SomethingCounts(l: Local, db: Db, s: Snapshot, cascade: (Local, Ref) -> Taken, p: Pass, r: Ref)
    requires Logs(l, db, s, cascade, p) && r in TakenAlong(l, p.order, cascade)
    ensures ScopeMatches(s, p.names)
  {
    NoneListed(p.order);
    NothingWithoutTombstones(l, cascade);
    hide TakenAlong;
    hide AppliedByServer;
  }

  lemma NothingWithoutTombstones(l: Local, cascade: (Local, Ref) -> Taken)
    ensures TakenAlong(l, [], cascade) == {}
  {
  }

  /** A run with the states each pass found: collection and server may change in any way in between. */
  ghost predicate LoggedRun(ls: seq<Local>, dbs: seq<Db>, cascade: (Local, Ref) -> Taken, ps: seq<Pass>, ss: seq<Snapshot>) {
    && LegalRun(ps, ss) && |ls| == |ps| && |dbs| == |ps|
    && forall j :: 0 <= j < |ps| ==> Logs(ls[j], dbs[j], ss[j], cascade, ps[j]) && NoteSync.DistinctGuids(ls[j].notes)
  }

  /** The note or card was not there again when a pass after `i` began, nor when one ended with success. */
  ghost predicate NotBack(ls: seq<Local>, ps: seq<Pass>, i: nat, n: nat, r: Ref)
    requires n < |ps| == |ls|
  {
    && (forall j :: i < j <= n ==> !HeldBy(ls[j], r))
    && (forall j :: i <= j < n && ps[j].end.Some? ==> r !in ps[j].end.value)
  }

  /**
   * Over every run, with any changes of routes, server and collection in between: a
   * note or card that pass `i` removed for the server, or that Anki took along in it,
   * and that did not come back, is sent for deletion by pass `n` if and only if no pass since succeeded, the
   * snapshot knew it, the scope is the same, the server still lists it, and the
   * deletes of pass `n` are approved or within the limits.
   */
  lemma RemovedContentIsEchoedIff(ls: seq<Local>, dbs: seq<Db>, cascade: (Local, Ref) -> Taken, ps: seq<Pass>, ss: seq<Snapshot>, i: nat, n: nat, r: Ref)
    requires LoggedRun(ls, dbs, cascade, ps, ss) && i < n < |ps| && IsIdentity(r)
    requires (r in ps[i].applied || r in TakenAlong(ls[i], ps[i].order, cascade)) && NotBack(ls, ps, i, n, r)
    ensures r in ps[n].sent <==>
      && (forall j :: i <= j < n ==> ps[j].end.None?)
      && r in ss[i].known && ScopeOf(ps[n].names) == ScopeOf(ps[i].names) && r in ViewKeys(dbs[n], ps[n].names)
      && (ps[n].approved || Modest(ss[n].known, DeletesToSend(ss[n], ps[n].names, ps[n].held, ps[n].applied, ps[n].view)))
  {
    GoneIsNotHeld(ls[i], dbs[i], ss[i], cascade, ps[i], r);
    MatchedScope(ls[i], dbs[i], ss[i], cascade, ps[i], ss[i + 1], r);
    forall j | i < j <= n
      ensures r !in ps[j].held && r !in ps[j].applied
    {
      AbsentStaysAway(ls[j], dbs[j], ss[j], cascade, ps[j], r);
    }
    assert ps[n].view == ViewKeys(dbs[n], ps[n].names);
    hide *;
    StayingAway(ps, ss, ls, dbs, cascade, i, n, r);
    RemovedResourceIsEchoedIff(ps, ss, i, n, r);
  }

  /** Something was removed, so the tombstones counted. */
  lemma MatchedScope(l: Local, db: Db, s: Snapshot, cascade: (Local, Ref) -> Taken, p: Pass, s': Snapshot, r: Ref)
    requires Logs(l, db, s, cascade, p) && LegalPass(s, p, s') && (r in p.applied || r in TakenAlong(l, p.order, cascade))
    ensures ScopeMatches(s, p.names)
  {
    if r in TakenAlong(l, p.order, cascade) {
      SomethingCounts(l, db, s, cascade, p, r);
    }
  }

  lemma StayingAway(ps: seq<Pass>, ss: seq<Snapshot>, ls: seq<Local>, dbs: seq<Db>, cascade: (Local, Ref) -> Taken, i: nat, n: nat, r: Ref)
    requires LoggedRun(ls, dbs, cascade, ps, ss) && i < n < |ps| && NotBack(ls, ps, i, n, r)
    requires r !in ps[i].held && forall j :: i < j <= n ==> r !in ps[j].held && r !in ps[j].applied
    ensures LegalRun(ps, ss) && StaysAway(ps, i, n, r)
  {
  }

  // Over several passes a deletion is echoed after all.

  function EchoLocal(sched: Scheduling): Local {
    Local(map[1 := NoteRow("g", 0, 0, [], [])], map[7 := CardRow(1, 0, "D", 0, sched)], map[], map[], map[], 0, map[])
  }

  /** The note was deleted elsewhere; deleting a note leaves its card on the server. */
  function EchoServer(sched: Scheduling): Db {
    EMPTY_DB.(cards := map[CardKey("g", 0) := Card(7, "D", sched, 1, 1)], tombstones := map[NoteRef("g") := 1])
  }

  const ECHO_KNOWN: set<Ref> := {NoteRef("g"), CardRef(7)}

  /** The three passes, as their logs tell. */
  function EchoPasses(): seq<Pass> {
    [Pass(None, false, [], ECHO_KNOWN, {}, ECHO_KNOWN, {}, Some(ECHO_KNOWN)),
     Pass(None, false, [NoteRef("g")], {}, ECHO_KNOWN, {CardRef(7)}, {}, None),
     Pass(None, false, [NoteRef("g")], {}, {}, {CardRef(7)}, {CardRef(7)}, None)]
  }

  /**
   * The failing run: a first success records the note and its card, a second pass
   * removes both for the tombstone and then fails, and the third sends the card for
   * deletion although this client's user deleted nothing.
   */
  lemma FailedPassEchoesChildCards(sched: Scheduling, cascade: (Local, Ref) -> Taken)
    ensures var l, db, s, ps := EchoLocal(sched), EchoServer(sched), Snapshot(2, Some({}), ECHO_KNOWN), EchoPasses();
      && LegalRun(ps, [EMPTY_SNAPSHOT, s, s, s]) && ps[1].end.None? && ps[2].sent == {CardRef(7)}
      && Logs(l, db, s, cascade, ps[1]) && Logs(Cleaned(l, [NoteRef("g")], cascade, {}), db, s, cascade, ps[2])
  {
    EchoStates(sched, cascade);
    EchoLegal();
  }

  const ECHO_GONE := Local(map[], map[], map[], map[], map[], 0, map[])

  lemma EchoView(sched: Scheduling)
    ensures ViewKeys(EchoServer(sched), None) == {CardRef(7)}
    ensures Counts([NoteRef("g")], EchoServer(sched).tombstones.Keys, Snapshot(2, Some({}), ECHO_KNOWN), None)
  {
    var m := ManifestOf(EchoServer(sched), None, 0);
    assert m.records == map[] && m.cards == map[CardKey("g", 0) := CardEntry(7, "D", 1, 1)];
    assert CardKey("g", 0) in m.cards;
    assert RefSet([NoteRef("g")]) == {NoteRef("g")};
  }

  lemma EchoStates(sched: Scheduling, cascade: (Local, Ref) -> Taken)
    ensures var l, db, s, ps := EchoLocal(sched), EchoServer(sched), Snapshot(2, Some({}), ECHO_KNOWN), EchoPasses();
      && Cleaned(l, [NoteRef("g")], cascade, {}) == ECHO_GONE
      && Logs(l, db, s, cascade, ps[1]) && Logs(ECHO_GONE, db, s, cascade, ps[2])
  {
    EchoView(sched);
    hide ViewKeys;
    hide Counts;
    EchoCleaned(sched, cascade);
    hide Cleaned;
    EchoApplied(sched, cascade);
    hide AppliedByServer;
  }

  /** With only a note tombstone there is nothing to take anything along. */
  lemma OneNoteTombstone(l: Local, cascade: (Local, Ref) -> Taken)
    ensures var q, after := [NoteRef("g")], AfterNotes(l, {NoteRef("g")});
      && RefSet(q) == {NoteRef("g")} && NoteRefs(RefSet(q)) == {NoteRef("g")} && NotetypeRefs(RefSet(q)) == {}
      && CardsOf(q) == [] && DecksOf(q) == []
      && AfterContent(l, q, cascade) == after && BeforeNotetypes(l, q, cascade) == after && AfterTombstones(l, q, cascade) == after
  {
    var q: seq<Ref> := [NoteRef("g")];
    assert RefSet(q) == {NoteRef("g")};
    assert q[..0] == [] && CardsOf(q[..0]) == [] && DecksOf(q[..0]) == [];
    assert AfterNotetypes(AfterNotes(l, {NoteRef("g")}), {}).notetypes == l.notetypes;
  }

  lemma EchoCleaned(sched: Scheduling, cascade: (Local, Ref) -> Taken)
    ensures Cleaned(EchoLocal(sched), [NoteRef("g")], cascade, {}) == ECHO_GONE && Cleaned(ECHO_GONE, [NoteRef("g")], cascade, {}) == ECHO_GONE
    ensures LocalKeys(ECHO_GONE, {}) == {}
  {
    OneNoteTombstone(EchoLocal(sched), cascade);
    OneNoteTombstone(ECHO_GONE, cascade);
    hide AfterTombstones;
    assert AfterNotes(EchoLocal(sched), {NoteRef("g")}) == ECHO_GONE;
    assert AfterNotes(ECHO_GONE, {NoteRef("g")}) == ECHO_GONE;
    assert Duplicates.Without(ECHO_GONE, Duplicates.SupersededCards(ECHO_GONE, {})) == ECHO_GONE;
  }

  lemma EchoApplied(sched: Scheduling, cascade: (Local, Ref) -> Taken)
    ensures forall r :: r in ECHO_KNOWN <==> AppliedByServer(EchoLocal(sched), [NoteRef("g")], cascade, r)
    ensures forall r :: !AppliedByServer(ECHO_GONE, [NoteRef("g")], cascade, r)
  {
    var l := EchoLocal(sched);
    OneNoteTombstone(l, cascade);
    OneNoteTombstone(ECHO_GONE, cascade);
    assert 1 in l.notes && l.notes[1].guid == "g" && HasNote(l, "g");
    assert 7 in l.cards && ChildOf(l, {NoteRef("g")}, 7);
    assert !HasNote(ECHO_GONE, "g");
    hide AfterTombstones;
    hide AfterContent;
    hide BeforeNotetypes;
  }

  lemma EchoLegal()
    ensures var s := Snapshot(2, Some({}), ECHO_KNOWN);
      LegalRun(EchoPasses(), [EMPTY_SNAPSHOT, s, s, s])
  {
  }
}
