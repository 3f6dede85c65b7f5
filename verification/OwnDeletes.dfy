// What becomes of a resource the user deleted between two passes of one client
// (sync_state.py: compute_local_deletes; content_sync.py: sync_content_once).

module OwnDeletes {
  import opened Prelude
  import opened ServerSpec
  import opened Anki
  import opened Deletes
  import opened Routing
  import opened Cleaning
  import opened Phases
  import opened ContentPass
  import CardSync
  import Duplicates

  /** The server still has the resource, and the routes, if there are any, cover it. */
  ghost predicate OnServer(db: Db, names: Option<set<string>>, r: Ref) {
    match r
    case NoteRef(g) =>
      r in db.records && (names.None? || (g != "" && exists k :: k in db.cards && k.guid == g && db.cards[k].cardId != 0 && InScope(db.cards[k].deck, names.value)))
    case CardRef(c) => exists k :: k in db.cards && db.cards[k].cardId == c && (names.None? || (c != 0 && InScope(db.cards[k].deck, names.value)))
    case NotetypeRef(m) => r in db.records
    case DeckRef(d) => r in db.records && (names.None? || InScope(d, names.value))
  }

  lemma ViewIsOnServer(db: Db, names: Option<set<string>>, r: Ref)
    ensures r in ViewKeys(db, names) <==> OnServer(db, names, r)
  {
    var full := ManifestOf(db, None, 0);
    var m := Routed(full, names);
    assert full.records.Keys == db.records.Keys by { forall q ensures q in full.records <==> q in db.records { } }
    forall k: CardKey
      ensures k in full.cards <==> k in db.cards
      ensures k in full.cards ==> full.cards[k].cardId == db.cards[k].cardId && full.cards[k].deck == db.cards[k].deck
    {
    }
    hide ManifestOf;
    hide InScope;
    match r
    case NoteRef(g) =>
    case CardRef(c) =>
      if OnServer(db, names, r) {
        var k :| k in db.cards && db.cards[k].cardId == c && (names.None? || (c != 0 && InScope(db.cards[k].deck, names.value)));
        assert k in m.cards && m.cards[k].cardId == c;
      }
    case NotetypeRef(_) =>
    case DeckRef(_) =>
  }

  /** What a pass deletes on the server, told by the snapshot, the cleaned collection and the server alone. */
  lemma SentIff(l: Local, db: Db, s: Snapshot, cascade: (Local, Ref) -> Taken, p: Pass, s': Snapshot) returns (deletes: set<Ref>)
    requires LegalPass(s, p, s') && Logs(l, db, s, cascade, p)
    ensures var scope := if p.names.None? then {} else p.names.value;
      forall r :: r in deletes <==>
        && s.version == 2 && s.scope == Some(scope) && r in s.known && OnServer(db, p.names, r)
        && !HeldInScope(Cleaned(l, p.order, cascade, scope), scope, r) && !AppliedByServer(l, p.order, cascade, r)
    ensures p.sent == if p.approved || Modest(s.known, deletes) then deletes else {}
  {
    deletes := DeletesToSend(s, p.names, p.held, p.applied, p.view);
    if !p.approved {
      UnapprovedPassIsRefusedIffImmodest(s, p, s');
    }
    forall r
      ensures r in p.held <==> HeldInScope(Cleaned(l, p.order, cascade, ScopeOf(p.names)), ScopeOf(p.names), r)
      ensures r in p.view <==> OnServer(db, p.names, r)
    {
      LocalKeysAreHeld(Cleaned(l, p.order, cascade, ScopeOf(p.names)), ScopeOf(p.names), r);
      ViewIsOnServer(db, p.names, r);
    }
    hide Counts;
    hide LocalKeys;
    hide ViewKeys;
    hide Cleaned;
    hide HeldInScope;
    hide OnServer;
    hide AppliedByServer;
    hide Modest;
    hide NeedsApproval;
  }

  /** The collection has no such resource, in any deck. */
  ghost predicate Missing(l: Local, r: Ref) {
    match r
    case NoteRef(g) => forall n :: n in l.notes ==> l.notes[n].guid != g
    case CardRef(c) => c !in l.cards
    case NotetypeRef(m) => m !in l.notetypes
    case DeckRef(d) => d !in l.decks
  }

  lemma MissingIsNotHeld(l: Local, q: seq<Ref>, cascade: (Local, Ref) -> Taken, scope: set<string>, r: Ref)
    requires Missing(l, r)
    ensures !HeldInScope(Cleaned(l, q, cascade, scope), scope, r)
  {
    OnlyRowsGo(l, q, cascade);
    hide AfterTombstones;
    hide AfterContent;
    hide BeforeNotetypes;
    hide InScope;
    hide Duplicates.SupersededCards;
    hide Duplicates.Orphaned;
  }

  lemma MissingIsNotApplied(l: Local, q: seq<Ref>, cascade: (Local, Ref) -> Taken, r: Ref)
    requires Missing(l, r) && r !in q
    ensures !AppliedByServer(l, q, cascade, r)
  {
  }

  /**
   * Over every run: a resource the collection held in scope at the end of its last
   * completed pass, and has no more, is deleted on the server by the next pass under
   * the same routes, if the server still has it there without a tombstone and the
   * deletes of the pass are approved or modest.
   */
  lemma OwnDeleteIsSent(ps: seq<Pass>, ss: seq<Snapshot>, k: nat, n: nat, r: Ref,
                        l: Local, db: Db, c: Setting, restored: bool, plan: Plan, tr: Trail, l': Local, db': Db,
                        now: Local, server: Db)
    returns (deletes: set<Ref>)
    requires LegalRun(ps, ss) && n < |ps| && LastSuccess(ps, k, n) && ps[n].names == c.names
    requires PassDone(l, db, ss[k], c, Synced, ps[k], restored, plan, tr, l', db', ss[k + 1])
    requires Logs(now, server, ss[n], c.engine.cascade, ps[n])
    requires HeldInScope(l', if c.names.None? then {} else c.names.value, r)
    requires r.NotetypeRef? ==> TypeInUse(l', if c.names.None? then {} else c.names.value, r.notetypeId) || (r in db.records && r !in ps[k].sent)
    requires Missing(now, r) && OnServer(server, c.names, r) && r !in server.tombstones
    ensures r in deletes && ps[n].sent == if ps[n].approved || Modest(ss[n].known, deletes) then deletes else {}
  {
    hide *;
    RunBounds(ps, ss, k, n);
    DoneRecords(l, db, ss[k], c, ps[k], restored, plan, tr, l', db', ss[k + 1]);
    SnapshotStands(ps, ss, k, n);
    SnapshotKnows(ss[n], c.names, l', db.records.Keys - ps[k].sent, r);
    NextIsLegal(ps, ss, n);
    deletes := SentIff(now, server, ss[n], c.engine.cascade, ps[n], ss[n + 1]);
    MissingIsNotHeld(now, ps[n].order, c.engine.cascade, if c.names.None? then {} else c.names.value, r);
    OrderIsTombstones(now, server, ss[n], c.engine.cascade, ps[n]);
    MissingIsNotApplied(now, ps[n].order, c.engine.cascade, r);
  }

  lemma DoneRecords(l: Local, db: Db, s: Snapshot, c: Setting, p: Pass, restored: bool, plan: Plan, tr: Trail, l': Local, db': Db, s': Snapshot)
    requires PassDone(l, db, s, c, Synced, p, restored, plan, tr, l', db', s')
    ensures SnapshotRecords(s', c.names, l', db.records.Keys - p.sent)
  {
    hide LegalPass;
    hide Logs;
    hide SnapshotRecords;
    hide NotesDecided;
    hide Decided;
    hide FollowsPlan;
    hide DeletedAll;
    hide PhasesDone;
    hide ForeignCardsKept;
    hide Syncable;
    hide Fresh;
    hide LocalKeys;
    hide FinalKeys;
  }

  lemma SnapshotStands(ps: seq<Pass>, ss: seq<Snapshot>, k: nat, n: nat)
    requires LegalRun(ps, ss) && n < |ps| && LastSuccess(ps, k, n)
    ensures ss[n] == ss[k + 1]
  {
    assert LastSuccess(ps, k, k + 1);
    SuccessSetsSnapshot(ps, ss, k, n);
    SuccessSetsSnapshot(ps, ss, k, k + 1);
  }

  lemma RunBounds(ps: seq<Pass>, ss: seq<Snapshot>, k: nat, n: nat)
    requires LegalRun(ps, ss) && n < |ps| && LastSuccess(ps, k, n)
    ensures k < n && |ss| == |ps| + 1
  {
  }

  lemma NextIsLegal(ps: seq<Pass>, ss: seq<Snapshot>, n: nat)
    requires LegalRun(ps, ss) && n < |ps|
    ensures LegalPass(ss[n], ps[n], ss[n + 1])
  {
  }

  lemma SnapshotKnows(s: Snapshot, names: Option<set<string>>, l: Local, listed: set<Ref>, r: Ref)
    requires SnapshotRecords(s, names, l, listed)
    ensures s.version == 2 && s.scope == Some(if names.None? then {} else names.value)
    ensures r in s.known <==>
      && HeldInScope(l, if names.None? then {} else names.value, r)
      && (r.NotetypeRef? ==> r in listed || TypeInUse(l, if names.None? then {} else names.value, r.notetypeId))
  {
    hide HeldInScope;
    hide TypeInUse;
  }

  lemma OrderIsTombstones(l: Local, db: Db, s: Snapshot, cascade: (Local, Ref) -> Taken, p: Pass)
    requires Logs(l, db, s, cascade, p)
    ensures forall r :: r in p.order ==> r in db.tombstones
  {
    forall r | r in p.order ensures r in db.tombstones { assert r in RefSet(p.order); }
  }
}
