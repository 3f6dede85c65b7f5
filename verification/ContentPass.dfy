// One whole content pass under any routes (content_sync.py: sync_content_once):
// deletions first, then decks, notetypes, notes, cards, review history and media,
// then the new snapshot.

module ContentPass {
  import opened Prelude
  import opened ServerSpec
  import opened ServerRuns
  import opened Anki
  import opened Server
  import opened Deletes
  import opened Routing
  import opened Cleaning
  import opened Phases
  import CardSync
  import Clock
  import Media
  import NoteSync

  // -------------------------------------------------------------------- the whole pass --

  lemma CleanedIsSyncable(l: Local, q: seq<Ref>, cascade: (Local, Ref) -> Taken, names: Option<set<string>>, db: Db, rs: set<Ref>, db': Db)
    requires Ready(l, db, names) && DeletedAll(db, rs, db') && Tidy(cascade)
    requires var cleaned := Cleaned(l, q, cascade, ScopeOf(names));
      NoteSync.DistinctGuids(cleaned.notes) && CardSync.DistinctIdentities(cleaned)
    ensures Syncable(Cleaned(l, q, cascade, ScopeOf(names)), db')
    ensures (forall k :: k in db'.cards ==> k.guid != "") && (names.Some? ==> CardSync.UniqueIds(db'.cards)) && forall r :: r in db'.reviews ==> r > 0
  {
    CleanedIsTidy(l, q, cascade, ScopeOf(names));
    hide Cleaned;
    hide CardsHaveNotes;
    hide Tidy;
    hide NoteSync.DistinctGuids;
    hide CardSync.DistinctIdentities;
    hide DuplicatesCovered;
  }

  /** The notes in scope are listed in the snapshot, and no other is. */
  lemma SnapshotListsNotes(l: Local, scope: set<string>, view: set<Ref>, g: string)
    requires g != ""
    ensures NoteRef(g) in FinalKeys(l, scope, view) <==> NoteShown(l, scope, g)
  {
    hide NoteInScope;
    if NoteShown(l, scope, g) {
      var n :| n in l.notes && l.notes[n].guid == g && NoteInScope(l, scope, n);
      assert NoteRef(l.notes[n].guid) in LocalKeys(l, scope);
    }
  }

  /** Without a selection every note with a guid is in scope. */
  lemma NoSelectionShowsAll(l: Local, g: string)
    requires g != ""
    ensures NoteShown(l, {}, g) <==> HasNote(l, g)
  {
    if n :| n in l.notes && l.notes[n].guid == g { assert NoteInScope(l, {}, n); }
  }

  lemma PassIsLegal(s: Snapshot, p: Pass, deletes: set<Ref>, s': Snapshot)
    requires deletes == DeletesToSend(s, p.names, p.held, p.applied, p.view) && (!ScopeMatches(s, p.names) ==> p.applied == {})
    requires if NeedsApproval(s, deletes) && !p.approved then p.sent == {} && p.end.None? else p.sent == deletes
    requires s' == if p.end.Some? then BuildState(p.names, p.end.value) else s
    ensures LegalPass(s, p, s')
  {
  }

  /** An empty snapshot knows of nothing to delete. */
  lemma NothingToSend(s: Snapshot, names: Option<set<string>>, held: set<Ref>, applied: set<Ref>, view: set<Ref>)
    ensures s.known == {} ==> DeletesToSend(s, names, held, applied, view) == {} && !NeedsApproval(s, {})
  {
    assert ContentOf({}) == {};
  }

  lemma NothingDeleted(db: Db)
    ensures DeletedAll(db, {}, db)
  {
  }

  /**
   * A note the server had lost stays on the client if and only if the client held
   * it without a tombstone that counts, and Anki did not take it along with another
   * tombstone; it is then back on the server if it was in scope when it was
   * compared, and in the snapshot if it is in scope at the end.
   */
  ghost predicate NotesDecided(l: Local, db: Db, q: seq<Ref>, cascade: (Local, Ref) -> Taken, scope: set<string>, l': Local, db': Db, s': Snapshot) {
    forall g :: g != "" && NoteRef(g) !in db.records ==>
      var stays := Outlives(l, q, cascade, g);
      && (HasNote(l', g) <==> stays)
      && (NoteRef(g) in db'.records <==> stays && NoteShown(Cleaned(l, q, cascade, scope), scope, g))
      && (NoteRef(g) in s'.known <==> stays && NoteShown(l', scope, g))
  }

  lemma ShownIsHeld(l: Local, scope: set<string>, g: string)
    ensures NoteShown(l, scope, g) ==> HasNote(l, g)
  {
  }

  lemma OneNoteDecided(l: Local, q: seq<Ref>, cascade: (Local, Ref) -> Taken, scope: set<string>, l': Local, db': Db, view: set<Ref>, g: string)
    requires NoteSync.DistinctGuids(l.notes) && g != ""
    requires HasNote(l', g) <==> HasNote(Cleaned(l, q, cascade, scope), g)
    requires NoteRef(g) in db'.records <==> NoteShown(Cleaned(l, q, cascade, scope), scope, g)
    ensures var stays := Outlives(l, q, cascade, g);
      && (HasNote(l', g) <==> stays)
      && (NoteRef(g) in db'.records <==> stays && NoteShown(Cleaned(l, q, cascade, scope), scope, g))
      && (NoteRef(g) in FinalKeys(l', scope, view) <==> stays && NoteShown(l', scope, g))
  {
    CleanedNotes(l, q, cascade, scope, g);
    SnapshotListsNotes(l', scope, view, g);
    ShownIsHeld(Cleaned(l, q, cascade, scope), scope, g);
    ShownIsHeld(l', scope, g);
    hide *;
  }

  /** What the later phases did to a note the server had lost. */
  lemma LostNoteSettled(l: Local, names: Option<set<string>>, db: Db, cleaned: Local, deletes: set<Ref>, db1: Db, l': Local, db': Db, g: string)
    requires Ready(l, db, names) && DeletedAll(db, deletes, db1) && NotesSettled(cleaned, db1, ScopeOf(names), l', db')
    requires g != "" && NoteRef(g) !in db.records
    ensures NoteSync.DistinctGuids(l.notes)
    ensures HasNote(l', g) <==> HasNote(cleaned, g)
    ensures NoteRef(g) in db'.records <==> NoteShown(cleaned, ScopeOf(names), g)
  {
    hide HasNote;
    hide NoteShown;
    hide DuplicatesCovered;
    hide CardsHaveNotes;
    hide NoteSync.DistinctGuids;
    hide NoteSync.NotesWellTyped;
    hide CardSync.UniqueIds;
    assert NoteRef(g) !in db1.records;
  }

  lemma KnownAfter(names: Option<set<string>>, keys: set<Ref>)
    ensures BuildState(names, keys).known == keys
  {
  }

  lemma PassDecidesNotes(l: Local, db: Db, q: seq<Ref>, cascade: (Local, Ref) -> Taken, names: Option<set<string>>, deletes: set<Ref>, db1: Db,
                         l': Local, db': Db, view: set<Ref>)
    requires Ready(l, db, names) && DeletedAll(db, deletes, db1)
    requires NotesSettled(Cleaned(l, q, cascade, ScopeOf(names)), db1, ScopeOf(names), l', db')
    ensures NotesDecided(l, db, q, cascade, ScopeOf(names), l', db', BuildState(names, FinalKeys(l', ScopeOf(names), view)))
  {
    KnownAfter(names, FinalKeys(l', ScopeOf(names), view));
    hide Ready;
    hide DeletedAll;
    hide NotesSettled;
    hide Cleaned;
    hide FinalKeys;
    hide BuildState;
    hide Outlives;
    hide HasNote;
    hide NoteShown;
    hide ScopeOf;
    hide NoteSync.DistinctGuids;
    forall g | g != "" && NoteRef(g) !in db.records
      ensures var stays := Outlives(l, q, cascade, g);
        && (HasNote(l', g) <==> stays)
        && (NoteRef(g) in db'.records <==> stays && NoteShown(Cleaned(l, q, cascade, ScopeOf(names)), ScopeOf(names), g))
        && (NoteRef(g) in FinalKeys(l', ScopeOf(names), view) <==> stays && NoteShown(l', ScopeOf(names), g))
    {
      LostNoteSettled(l, names, db, Cleaned(l, q, cascade, ScopeOf(names)), deletes, db1, l', db', g);
      OneNoteDecided(l, q, cascade, ScopeOf(names), l', db', view, g);
    }
  }

  /** Without a selection the note is gone on all three sides, or back on all three. */
  lemma UnroutedPassDecidesNotes(l: Local, db: Db, q: seq<Ref>, cascade: (Local, Ref) -> Taken, l': Local, db': Db, s': Snapshot, g: string)
    requires NotesDecided(l, db, q, cascade, {}, l', db', s') && NoteSync.DistinctGuids(l.notes)
    requires g != "" && NoteRef(g) !in db.records
    ensures var stays := Outlives(l, q, cascade, g);
      (HasNote(l', g) <==> stays) && (NoteRef(g) in db'.records <==> stays) && (NoteRef(g) in s'.known <==> stays)
  {
    CleanedNotes(l, q, cascade, {}, g);
    NoSelectionShowsAll(Cleaned(l, q, cascade, {}), g);
    NoSelectionShowsAll(l', g);
    hide Cleaned;
    hide Outlives;
    hide HasNote;
    hide NoteShown;
  }

  /** A listed server card the pass did not see locally before the pulls is never overwritten. */
  ghost predicate ForeignCardsKept(cleaned: Local, db: Db, names: Option<set<string>>, sent: set<Ref>, db': Db) {
    forall k: CardKey ::
      (k in Routed(ManifestOf(db, None, 0), names).cards && k in db.cards && CardSync.CardNamed(CardSync.Shown(cleaned, ScopeOf(names)), k).None?
       && CardRef(db.cards[k].cardId) !in sent) ==> SameRow(db.cards, db'.cards, k)
  }

  lemma ForeignCardsAreKept(cleaned: Local, db: Db, names: Option<set<string>>, m: Manifest, sent: set<Ref>, db1: Db, db': Db, authoritative: set<CardKey>)
    requires DeletedAll(db, sent, db1) && m.cards == Routed(ManifestOf(db, None, 0), names).cards && forall k :: k in m.cards ==> k.guid != ""
    requires forall k :: k in authoritative <==> k in m.cards && CardSync.CardNamed(CardSync.Shown(cleaned, ScopeOf(names)), k).None?
    requires forall k: CardKey :: k.guid != "" && k in authoritative ==> SameRow(db1.cards, db'.cards, k)
    ensures ForeignCardsKept(cleaned, db, names, sent, db')
  {
    hide CardSync.CardNamed;
    hide Routed;
    forall k: CardKey | k in m.cards && k in db.cards && CardSync.CardNamed(CardSync.Shown(cleaned, ScopeOf(names)), k).None?
                        && CardRef(db.cards[k].cardId) !in sent
      ensures SameRow(db.cards, db'.cards, k)
    {
      assert SameRow(db1.cards, db'.cards, k);
    }
  }

  /** server_authoritative_card_keys: exactly what the manifest lists and the pass did not see before the pulls. */
  method AuthoritativeKeys(l: Local, scope: set<string>, m: Manifest) returns (keys: set<CardKey>)
    requires CardSync.DistinctIdentities(l) && forall k :: k in m.cards ==> k.guid != ""
    ensures forall k :: k in keys <==> k in m.cards && CardSync.CardNamed(CardSync.Shown(l, scope), k).None?
  {
    CardSync.ShownIsDistinct(l, scope);
    var localCards := CardSync.CardManifest(CardSync.Shown(l, scope));
    keys := m.cards.Keys - localCards.Keys;
  }

  /** A log states what a pass over these states saw. */
  ghost predicate Logs(l: Local, db: Db, s: Snapshot, cascade: (Local, Ref) -> Taken, p: Pass) {
    && Counts(p.order, db.tombstones.Keys, s, p.names)
    && p.view == ViewKeys(db, p.names) && p.held == LocalKeys(Cleaned(l, p.order, cascade, ScopeOf(p.names)), ScopeOf(p.names))
    && forall r :: r in p.applied <==> AppliedByServer(l, p.order, cascade, r)
  }

  lemma LogIsTrue(l: Local, db: Db, s: Snapshot, cascade: (Local, Ref) -> Taken, p: Pass)
    requires Counts(p.order, db.tombstones.Keys, s, p.names) && p.view == ViewKeys(db, p.names)
    requires p.held == LocalKeys(Cleaned(l, p.order, cascade, ScopeOf(p.names)), ScopeOf(p.names))
    requires forall r :: r in p.applied <==> AppliedByServer(l, p.order, cascade, r)
    ensures Logs(l, db, s, cascade, p)
  {
  }

  lemma SameLog(l: Local, db: Db, s: Snapshot, cascade: (Local, Ref) -> Taken, p: Pass, q: Pass)
    requires Logs(l, db, s, cascade, p) && q == p.(sent := q.sent, end := q.end)
    ensures Logs(l, db, s, cascade, q)
  {
  }

  /** A restore starts from an empty snapshot, so it deletes nothing. */
  lemma FreshSendsNothing(l: Local, db: Db, s: Snapshot, names: Option<set<string>>, p: Pass, deletes: set<Ref>)
    requires deletes == DeletesToSend(s, names, p.held, p.applied, p.view)
    ensures Fresh(l, db, s, names) ==> names.None? && RestoreSafe(l, db) && deletes == {} && !NeedsApproval(s, deletes)
  {
    NothingToSend(s, names, p.held, p.applied, p.view);
  }

  lemma FinalKeysAreHeld(l: Local, scope: set<string>, view: set<Ref>)
    ensures FinalKeys(l, scope, view) <= LocalKeys(l, scope)
  {
  }

  lemma SoFarMeans(l: Local, db: Db, l': Local, db': Db, preferServer: bool, authoritative: set<CardKey>)
    requires SoFar(l, db, l', db', preferServer, authoritative)
    ensures preferServer ==> Unpublished(db, db') && NothingLost(l, l')
    ensures forall k: CardKey :: k.guid != "" && k in authoritative ==> SameRow(db.cards, db'.cards, k)
  {
  }

  lemma CurrentCardKeys(m: Manifest, db: Db, names: Option<set<string>>)
    requires IsCurrent(m, db, names)
    ensures forall k :: k in m.cards ==> k.guid != ""
  {
  }

  /** A second manifest after deletes were sent. */
  method Refresh(server: Handler, names: Option<set<string>>, now: int) returns (m: Manifest)
    requires var db := server.State();
      (forall k :: k in db.cards ==> k.guid != "") && (names.Some? ==> CardSync.UniqueIds(db.cards)) && forall r :: r in db.reviews ==> r > 0
    ensures m == Routed(ManifestOf(server.State(), None, now), names) && IsCurrent(m, server.State(), names)
  {
    var full := server.GetManifest(None, now);
    RoutedIsCurrent(server.State(), names, now);
    FullIsCurrent(server.State(), now);
    m := RouteManifest(server, full, names);
  }

  /** What a pass knows when it has cleaned up and is about to write to the server. */
  datatype Plan = Plan(manifest: Manifest, deletes: set<Ref>, authoritative: set<CardKey>, restore: bool, compared: set<int>)

  /** The collection a pass works on once it has cleaned up, as its log tells. */
  ghost function CleanedFor(l: Local, c: Setting, log: Pass): Local {
    Cleaned(l, log.order, c.engine.cascade, ScopeOf(c.names))
  }

  /** What is decided before anything is sent. */
  ghost predicate Decided(plan: Plan, db: Db, s: Snapshot, c: Setting, cleaned: Local) {
    && plan.manifest == Routed(ManifestOf(db, None, c.clocks.planned), c.names) && IsCurrent(plan.manifest, db, c.names)
    && (plan.restore <==> Fresh(cleaned, db, s, c.names))
    && (plan.restore ==> c.names.None? && plan.deletes == {} && RestoreSafe(cleaned, db) && !NeedsApproval(s, plan.deletes))
    && (forall k :: k in plan.authoritative <==>
        k in plan.manifest.cards && CardSync.CardNamed(CardSync.Shown(cleaned, ScopeOf(c.names)), k).None?)
    && plan.compared == ComparedNotetypes(cleaned, ScopeOf(c.names), plan.manifest, db.records)
  }

  /** What a pass may rely on: well-formed sides, and an engine that behaves as Anki does. */
  ghost predicate Startable(l: Local, db: Db, c: Setting) {
    && Ready(l, db, c.names) && Generates(c.engine.generate) && Tidy(c.engine.cascade)
    && Clock.GO_ZERO_TIME !in {c.clocks.notesPushed, c.clocks.cardsPushed, c.clocks.reviewsPushed}
  }

  /** The plan and the log, once the deletes are computed. */
  ghost predicate Planned(l: Local, db: Db, s: Snapshot, c: Setting, plan: Plan, log: Pass) {
    && Startable(l, db, c) && Logs(l, db, s, c.engine.cascade, log)
    && log.names == c.names && log.approved == c.policy.allowLargeDeletes && log.sent == {} && log.end.None?
    && (!ScopeMatches(s, c.names) ==> log.applied == {})
    && plan.deletes == DeletesToSend(s, c.names, log.held, log.applied, log.view)
    && Decided(plan, db, s, c, CleanedFor(l, c, log))
  }

  /** Everything up to the approval of the deletes. */
  method PlanPass(state: StateFile, col: Collection, server: Handler, c: Setting) returns (plan: Plan, ghost log: Pass)
    requires Startable(col.State(), server.State(), c)
    modifies col`notes, col`cards, col`decks, col`notetypes, col`revlog
    ensures Planned(old(col.State()), server.State(), state.snapshot, c, plan, log)
    ensures col.State() == CleanedFor(old(col.State()), c, log)
  {
    ghost var l, db, s := col.State(), server.State(), state.snapshot;
    StartableMeans(l, db, c);
    assert db.tombstones == server.tombstones && db == server.State() && db.records == server.records;
    hide *;
    var m, q, applied, deletes := PrepareDeletes(state, col, server, c.names, c.clocks.planned, c.engine.cascade);
    log := Pass(c.names, c.policy.allowLargeDeletes, q, LocalKeys(col.State(), ScopeOf(c.names)), applied, ViewKeys(db, c.names), {}, None);
    LogIsTrue(l, db, s, c.engine.cascade, log);
    FreshSendsNothing(col.State(), db, s, c.names, log, deletes);
    CurrentCardKeys(m, db, c.names);
    var authoritative := AuthoritativeKeys(col.State(), ScopeOf(c.names), m);
    var restore := IsFreshRestore(state.snapshot, c.names, col.State(), m, db);
    plan := Plan(m, deletes, authoritative, restore, ComparedNotetypes(col.State(), ScopeOf(c.names), m, server.records));
    PlanIsMade(l, db, s, c, plan, log, col.State());
  }

  lemma StartableMeans(l: Local, db: Db, c: Setting)
    requires Startable(l, db, c)
    ensures Ready(l, db, c.names) && Generates(c.engine.generate) && Tidy(c.engine.cascade)
  {
  }

  lemma PlanIsMade(l: Local, db: Db, s: Snapshot, c: Setting, plan: Plan, log: Pass, cleaned: Local)
    requires Startable(l, db, c) && Logs(l, db, s, c.engine.cascade, log)
    requires log.names == c.names && log.approved == c.policy.allowLargeDeletes && log.sent == {} && log.end.None?
    requires !ScopeMatches(s, c.names) ==> log.applied == {}
    requires plan.deletes == DeletesToSend(s, c.names, log.held, log.applied, log.view)
    requires cleaned == Cleaned(l, log.order, c.engine.cascade, ScopeOf(c.names))
    requires plan.manifest == Routed(ManifestOf(db, None, c.clocks.planned), c.names) && IsCurrent(plan.manifest, db, c.names)
    requires plan.restore <==> Fresh(cleaned, db, s, c.names)
    requires plan.restore ==> c.names.None? && plan.deletes == {} && RestoreSafe(cleaned, db) && !NeedsApproval(s, plan.deletes)
    requires forall k :: k in plan.authoritative <==>
      k in plan.manifest.cards && CardSync.CardNamed(CardSync.Shown(cleaned, ScopeOf(c.names)), k).None?
    requires plan.compared == ComparedNotetypes(cleaned, ScopeOf(c.names), plan.manifest, db.records)
    ensures Planned(l, db, s, c, plan, log) && cleaned == CleanedFor(l, c, log)
  {
  }

  /** The states a successful pass went through belong to its plan. */
  ghost predicate FollowsPlan(plan: Plan, c: Setting, tr: Trail) {
    && tr.compared == plan.compared && tr.restore == plan.restore && tr.authoritative == plan.authoritative
    && tr.manifest == if plan.deletes == {} then plan.manifest else Routed(ManifestOf(tr.deleted, None, c.clocks.deleted), c.names)
  }

  /** What SendAndSync promises. */
  ghost predicate Sent(cleaned: Local, db: Db, c: Setting, plan: Plan, result: Result, db1: Db, tr: Trail, l': Local, db': Db) {
    && !result.DeletionRefused? && DeletedAll(db, plan.deletes, db1) && (plan.deletes == {} ==> db1 == db) && Syncable(l', db')
    && (result.Synced? ==> NotesSettled(cleaned, db1, ScopeOf(c.names), l', db'))
    && (result.Synced? ==> tr.deleted == db1 && FollowsPlan(plan, c, tr) && PhasesDone(c, tr, cleaned, l', db'))
    && (plan.restore ==> Unpublished(db, db') && NothingLost(cleaned, l'))
    && ForeignCardsKept(cleaned, db, c.names, plan.deletes, db')
  }

  /** The local deletes, a fresh manifest if there were any, and the remaining phases. */
  method SendAndSync(col: Collection, server: Handler, files: Media.Store, media: Media.Store, c: Setting, transfers: Transfers, plan: Plan,
                     ghost l: Local, ghost db: Db, ghost s: Snapshot, ghost log: Pass)
    returns (result: Result, m: Manifest, ghost db1: Db, ghost tr: Trail)
    requires Planned(l, db, s, c, plan, log) && col.State() == CleanedFor(l, c, log) && server.State() == db && files != media
    modifies col, server, files, media
    ensures Sent(CleanedFor(l, c, log), db, c, plan, result, db1, tr, col.State(), server.State())
    ensures result.Synced? ==> m == tr.manifest
    ensures result.Synced? ==> MediaPublished(c.engine.fold, c.engine.references(col.State(), ScopeOf(c.names)), old(media.files), files.files)
  {
    hide *;
    ghost var cleaned := col.State();
    PlanMeans(l, db, s, c, plan, log);
    m := plan.manifest;
    if plan.deletes != {} {
      PushLocalDeletes(server, plan.deletes, c.clocks.deleted);
      StillSyncable(l, db, s, c, plan, log, server.State());
      m := Refresh(server, c.names, c.clocks.deleted);
    }
    db1 := server.State();
    StillSyncable(l, db, s, c, plan, log, db1);
    result, tr := SyncResources(col, server, files, media, m, c, transfers, plan.compared, plan.restore, plan.authoritative);
    PhasesSent(l, db, s, c, plan, log, cleaned, result, m, db1, tr, col.State(), server.State());
  }

  lemma PlanMeans(l: Local, db: Db, s: Snapshot, c: Setting, plan: Plan, log: Pass)
    requires Planned(l, db, s, c, plan, log)
    ensures IsCurrent(plan.manifest, db, c.names) && DeletedAll(db, {}, db) && Generates(c.engine.generate)
    ensures plan.restore ==> c.names.None? && plan.deletes == {} && RestoreSafe(CleanedFor(l, c, log), db)
    ensures Clock.GO_ZERO_TIME !in {c.clocks.notesPushed, c.clocks.cardsPushed, c.clocks.reviewsPushed}
  {
    NothingDeleted(db);
  }

  /** Once the deletes are sent, the other phases may begin. */
  lemma StillSyncable(l: Local, db: Db, s: Snapshot, c: Setting, plan: Plan, log: Pass, db1: Db)
    requires Planned(l, db, s, c, plan, log) && DeletedAll(db, plan.deletes, db1)
    ensures Syncable(CleanedFor(l, c, log), db1)
    ensures (forall k :: k in db1.cards ==> k.guid != "") && (c.names.Some? ==> CardSync.UniqueIds(db1.cards)) && forall r :: r in db1.reviews ==> r > 0
  {
    ReadyMeans(l, db, c.names);
    CleanedIsDistinct(l, log.order, c.engine.cascade, c.names);
    assert Tidy(c.engine.cascade) && Ready(l, db, c.names);
    hide Cleaned;
    CleanedIsSyncable(l, log.order, c.engine.cascade, c.names, db, plan.deletes, db1);
  }

  lemma PhasesSent(l: Local, db: Db, s: Snapshot, c: Setting, plan: Plan, log: Pass, cleaned: Local, result: Result, m: Manifest, db1: Db,
                   tr: Trail, l': Local, db': Db)
    requires Planned(l, db, s, c, plan, log) && cleaned == CleanedFor(l, c, log)
    requires DeletedAll(db, plan.deletes, db1) && (plan.deletes == {} ==> db1 == db)
    requires m == if plan.deletes == {} then plan.manifest else Routed(ManifestOf(db1, None, c.clocks.deleted), c.names)
    requires !result.DeletionRefused? && SoFar(cleaned, db1, l', db', plan.restore, plan.authoritative) && Syncable(l', db')
    requires result.Synced? ==> NotesSettled(cleaned, db1, ScopeOf(c.names), l', db')
    requires result.Synced? ==>
      && tr.manifest == m && tr.compared == plan.compared && tr.restore == plan.restore && tr.authoritative == plan.authoritative
      && tr.deleted == db1 && PhasesDone(c, tr, cleaned, l', db')
    ensures Sent(cleaned, db, c, plan, result, db1, tr, l', db')
  {
    hide Startable;
    hide Logs;
    hide Cleaned;
    hide DeletedAll;
    hide IsCurrent;
    hide Syncable;
    hide NotesSettled;
    hide PhasesDone;
    hide RestoreSafe;
    hide Fresh;
    hide Unpublished;
    hide NothingLost;
    hide SameRow;
    hide SoFar;
    hide Routed;
    hide ManifestOf;
    hide ComparedNotetypes;
    hide NeedsApproval;
    hide DeletesToSend;
    hide CardSync.CardNamed;
    SoFarMeans(cleaned, db1, l', db', plan.restore, plan.authoritative);
    CurrentCardKeys(plan.manifest, db, c.names);
    ViewIgnoresClock(db, c.names, c.clocks.planned);
    ForeignCardsAreKept(cleaned, db, c.names, plan.manifest, plan.deletes, db1, db', plan.authoritative);
  }

  /** What a pass promises, whatever phase ends it; primes mark the states it leaves. */
  ghost predicate PassDone(l: Local, db: Db, s: Snapshot, c: Setting, result: Result, log: Pass, restored: bool, plan: Plan, tr: Trail,
                           l': Local, db': Db, s': Snapshot)
  {
    var cleaned := CleanedFor(l, c, log);
    && LegalPass(s, log, s') && Logs(l, db, s, c.engine.cascade, log) && log.names == c.names && log.approved == c.policy.allowLargeDeletes
    && (result.Synced? <==> log.end.Some?) && (result.Synced? ==> log.end.value <= LocalKeys(l', ScopeOf(c.names)))
    && (result.DeletionRefused? ==> db' == db && l' == cleaned)
    && (restored <==> Fresh(cleaned, db, s, c.names)) && (restored ==> Unpublished(db, db') && NothingLost(cleaned, l'))
    && ForeignCardsKept(cleaned, db, c.names, log.sent, db')
    && Syncable(l', db')
    && (result.Synced? ==>
        && NotesDecided(l, db, log.order, c.engine.cascade, ScopeOf(c.names), l', db', s')
        && log.end.value == FinalKeys(l', ScopeOf(c.names), ManifestKeys(tr.manifest))
        && SnapshotRecords(s', c.names, l', db.records.Keys - log.sent)
        && plan.deletes == log.sent && Decided(plan, db, s, c, cleaned) && FollowsPlan(plan, c, tr)
        && DeletedAll(db, log.sent, tr.deleted) && (log.sent == {} ==> tr.deleted == db)
        && PhasesDone(c, tr, cleaned, l', db'))
  }

  lemma RefusedIsDone(l: Local, db: Db, s: Snapshot, c: Setting, plan: Plan, log: Pass, tr: Trail)
    requires Planned(l, db, s, c, plan, log) && NeedsApproval(s, plan.deletes) && !c.policy.allowLargeDeletes
    ensures PassDone(l, db, s, c, DeletionRefused(plan.deletes), log, plan.restore, plan, tr, CleanedFor(l, c, log), db, s)
  {
    hide *;
    PlannedMeans(l, db, s, c, plan, log);
    PassIsLegal(s, log, plan.deletes, s);
    NothingWritten(CleanedFor(l, c, log), db, c.names);
    NothingDeletedSyncs(l, db, s, c, plan, log);
    RefusalIsDone(l, db, s, c, plan, log, tr);
  }

  lemma RefusalIsDone(l: Local, db: Db, s: Snapshot, c: Setting, plan: Plan, log: Pass, tr: Trail)
    requires var cleaned := CleanedFor(l, c, log);
      && LegalPass(s, log, s) && Logs(l, db, s, c.engine.cascade, log) && log.names == c.names && log.approved == c.policy.allowLargeDeletes
      && log.sent == {} && log.end.None? && !Fresh(cleaned, db, s, c.names) && !plan.restore
      && ForeignCardsKept(cleaned, db, c.names, {}, db) && Syncable(cleaned, db)
    ensures PassDone(l, db, s, c, DeletionRefused(plan.deletes), log, plan.restore, plan, tr, CleanedFor(l, c, log), db, s)
  {
    hide LegalPass;
    hide Logs;
    hide CleanedFor;
    hide Fresh;
    hide Unpublished;
    hide NothingLost;
    hide ForeignCardsKept;
    hide Syncable;
    hide NotesDecided;
    hide SnapshotRecords;
    hide Decided;
    hide FollowsPlan;
    hide DeletedAll;
    hide PhasesDone;
  }

  lemma PlannedMeans(l: Local, db: Db, s: Snapshot, c: Setting, plan: Plan, log: Pass)
    requires Planned(l, db, s, c, plan, log)
    ensures Startable(l, db, c) && Logs(l, db, s, c.engine.cascade, log)
    ensures log.names == c.names && log.approved == c.policy.allowLargeDeletes && log.sent == {} && log.end.None?
    ensures !ScopeMatches(s, c.names) ==> log.applied == {}
    ensures plan.deletes == DeletesToSend(s, c.names, log.held, log.applied, log.view)
    ensures Decided(plan, db, s, c, CleanedFor(l, c, log))
    ensures plan.restore <==> Fresh(CleanedFor(l, c, log), db, s, c.names)
    ensures plan.restore ==> c.names.None? && plan.deletes == {} && RestoreSafe(CleanedFor(l, c, log), db) && !NeedsApproval(s, plan.deletes)
  {
    hide Logs;
    hide Startable;
    hide Cleaned;
    hide Fresh;
    hide RestoreSafe;
    hide DeletesToSend;
    hide NeedsApproval;
    hide IsCurrent;
    hide ComparedNotetypes;
    hide Routed;
  }

  /** A refused pass, too, leaves both sides fit for another. */
  lemma NothingDeletedSyncs(l: Local, db: Db, s: Snapshot, c: Setting, plan: Plan, log: Pass)
    requires Planned(l, db, s, c, plan, log)
    ensures Syncable(CleanedFor(l, c, log), db)
  {
    NothingDeleted(db);
    ReadyMeans(l, db, c.names);
    CleanedIsDistinct(l, log.order, c.engine.cascade, c.names);
    assert Tidy(c.engine.cascade) && Ready(l, db, c.names);
    hide Cleaned;
    CleanedIsSyncable(l, log.order, c.engine.cascade, c.names, db, {}, db);
  }

  lemma EndedIsDone(l: Local, db: Db, s: Snapshot, c: Setting, plan: Plan, begun: Pass, log: Pass, result: Result, db1: Db, tr: Trail, l': Local, db': Db)
    requires Planned(l, db, s, c, plan, begun) && !(NeedsApproval(s, plan.deletes) && !c.policy.allowLargeDeletes)
    requires Sent(CleanedFor(l, c, begun), db, c, plan, result, db1, tr, l', db') && !result.Synced?
    requires log == begun.(sent := plan.deletes)
    ensures PassDone(l, db, s, c, result, log, plan.restore, plan, tr, l', db', s)
  {
    hide Startable;
    hide DeletesToSend;
    hide NeedsApproval;
    hide Logs;
    hide LegalPass;
    hide Cleaned;
    hide ForeignCardsKept;
    hide Unpublished;
    hide NothingLost;
    hide Fresh;
    hide Syncable;
    SameLog(l, db, s, c.engine.cascade, begun, log);
    PassIsLegal(s, log, plan.deletes, s);
  }

  /** The manifest names every notetype the server still has. */
  lemma NotetypesAreNamed(db: Db, names: Option<set<string>>, now: int, m: int)
    ensures NotetypeRef(m) in ManifestKeys(Routed(ManifestOf(db, None, now), names)) <==> NotetypeRef(m) in db.records
  {
    var r: GuardedRef := NotetypeRef(m);
    var full := ManifestOf(db, None, now);
    assert r in full.records <==> r in db.records;
    assert r in Routed(full, names).records <==> r in full.records;
    hide ManifestOf;
  }

  lemma SnapshotIsRecorded(db: Db, c: Setting, plan: Plan, db1: Db, tr: Trail, l': Local)
    requires plan.manifest == Routed(ManifestOf(db, None, c.clocks.planned), c.names) && FollowsPlan(plan, c, tr) && tr.deleted == db1
    requires DeletedAll(db, plan.deletes, db1)
    ensures SnapshotRecords(BuildState(c.names, FinalKeys(l', ScopeOf(c.names), ManifestKeys(tr.manifest))), c.names, l', db.records.Keys - plan.deletes)
  {
    forall m
      ensures NotetypeRef(m) in ManifestKeys(tr.manifest) <==> NotetypeRef(m) in db.records.Keys - plan.deletes
    {
      var r: GuardedRef := NotetypeRef(m);
      NotetypesAreNamed(db, c.names, c.clocks.planned, m);
      NotetypesAreNamed(db1, c.names, c.clocks.deleted, m);
      assert r in db1.records <==> r in db.records && r !in plan.deletes;
      hide ManifestKeys;
      hide ManifestOf;
      hide Routed;
    }
    FinalKeysAreRecorded(l', c.names, ManifestKeys(tr.manifest), db.records.Keys - plan.deletes);
  }

  lemma FinishedIsDone(l: Local, db: Db, s: Snapshot, c: Setting, plan: Plan, begun: Pass, log: Pass, db1: Db, tr: Trail, l': Local, db': Db)
    requires Planned(l, db, s, c, plan, begun) && !(NeedsApproval(s, plan.deletes) && !c.policy.allowLargeDeletes)
    requires Sent(CleanedFor(l, c, begun), db, c, plan, Synced, db1, tr, l', db')
    requires log == begun.(sent := plan.deletes, end := Some(FinalKeys(l', ScopeOf(c.names), ManifestKeys(tr.manifest))))
    ensures PassDone(l, db, s, c, Synced, log, plan.restore, plan, tr, l', db',
                     BuildState(c.names, FinalKeys(l', ScopeOf(c.names), ManifestKeys(tr.manifest))))
  {
    hide SnapshotRecords;
    hide Startable;
    hide DeletesToSend;
    hide NeedsApproval;
    hide Logs;
    hide LegalPass;
    hide Cleaned;
    hide DeletedAll;
    hide ForeignCardsKept;
    hide Unpublished;
    hide NothingLost;
    hide Fresh;
    hide Syncable;
    hide NotesDecided;
    hide PhasesDone;
    hide FollowsPlan;
    hide FinalKeys;
    hide LocalKeys;
    hide BuildState;
    var view := ManifestKeys(tr.manifest);
    SameLog(l, db, s, c.engine.cascade, begun, log);
    PassIsLegal(s, log, plan.deletes, BuildState(c.names, log.end.value));
    StartableMeans(l, db, c);
    PassDecidesNotes(l, db, begun.order, c.engine.cascade, c.names, plan.deletes, db1, l', db', view);
    FinalKeysAreHeld(l', ScopeOf(c.names), view);
    SnapshotIsRecorded(db, c, plan, db1, tr, l');
  }

  /** Carry the approved plan out, and renew the snapshot if every phase succeeded. */
  method CarryOut(state: StateFile, col: Collection, server: Handler, files: Media.Store, media: Media.Store, c: Setting, transfers: Transfers,
                  plan: Plan, ghost begun: Pass, ghost l: Local, ghost db: Db)
    returns (result: Result, ghost log: Pass, ghost tr: Trail)
    requires Planned(l, db, state.snapshot, c, plan, begun) && col.State() == CleanedFor(l, c, begun)
    requires server.State() == db && !(NeedsApproval(state.snapshot, plan.deletes) && !c.policy.allowLargeDeletes) && files != media
    modifies state, col, server, files, media
    ensures PassDone(l, db, old(state.snapshot), c, result, log, plan.restore, plan, tr, col.State(), server.State(), state.snapshot)
    ensures result.Synced? ==> MediaPublished(c.engine.fold, c.engine.references(col.State(), ScopeOf(c.names)), old(media.files), files.files)
  {
    hide *;
    ghost var s := state.snapshot;
    log := begun.(sent := plan.deletes);
    ghost var db1;
    var m;
    result, m, db1, tr := SendAndSync(col, server, files, media, c, transfers, plan, l, db, s, begun);
    if !result.Synced? {
      EndedIsDone(l, db, s, c, plan, begun, log, result, db1, tr, col.State(), server.State());
      return;
    }
    var keys := FinalKeys(col.State(), ScopeOf(c.names), ManifestKeys(m));
    state.snapshot := BuildState(c.names, keys);
    log := log.(end := Some(keys));
    FinishedIsDone(l, db, s, c, plan, begun, log, db1, tr, col.State(), server.State());
  }

  /**
   * sync_content_once.  Under any routes and whatever phase ends the pass, the
   * deletes it sends obey the rules of LegalPass, for what the log says it saw; only
   * a pass that runs to the end renews the snapshot; a restore happens exactly on a
   * fresh client, and publishes and loses nothing; no listed card foreign to the
   * collection is overwritten; and both sides stay fit for another pass.  A pass that
   * runs to the end has decided every note the server had lost, and taken every deck,
   * notetype, note, card, review and counter to its outcome, phase by phase.
   */
  method SyncContentOnce(state: StateFile, col: Collection, server: Handler, files: Media.Store, media: Media.Store, c: Setting, transfers: Transfers)
    returns (result: Result, restored: bool, ghost log: Pass, ghost plan: Plan, ghost tr: Trail)
    requires Startable(col.State(), server.State(), c) && files != media
    modifies state, col, server, files, media
    ensures PassDone(old(col.State()), old(server.State()), old(state.snapshot), c, result, log, restored, plan, tr,
                     col.State(), server.State(), state.snapshot)
    ensures result.Synced? ==> MediaPublished(c.engine.fold, c.engine.references(col.State(), ScopeOf(c.names)), old(media.files), files.files)
  {
    hide *;
    ghost var l, db, s := col.State(), server.State(), state.snapshot;
    var made;
    made, log := PlanPass(state, col, server, c);
    plan := made;
    restored := made.restore;
    if NeedsApproval(state.snapshot, made.deletes) && !c.policy.allowLargeDeletes {
      tr := NoTrail(made.manifest, col.State(), db);
      RefusedIsDone(l, db, s, c, made, log, tr);
      return DeletionRefused(made.deletes), restored, log, plan, tr;
    }
    result, log, tr := CarryOut(state, col, server, files, media, c, transfers, made, log, l, db);
  }

  ghost function NoTrail(m: Manifest, l: Local, db: Db): Trail {
    Trail(m, {}, false, {}, db, l, db, l, db, l, db, l, db, l, db, {}, [], [])
  }

  lemma NothingWritten(cleaned: Local, db: Db, names: Option<set<string>>)
    ensures ForeignCardsKept(cleaned, db, names, {}, db)
  {
  }

  // ------------------------------------------------------------------- the next pass --

  /**
   * What a pass keeps for the next: everything it relies on, under every routes,
   * unless it is routed and two server cards share an id; new cards may bring a
   * shared id in.  A snapshot that never knew a blank guid never does.
   */
  lemma ReadyAgain(l: Local, db: Db, s: Snapshot, c: Setting, result: Result, log: Pass, restored: bool, plan: Plan, tr: Trail,
                   l': Local, db': Db, s': Snapshot, names: Option<set<string>>)
    requires PassDone(l, db, s, c, result, log, restored, plan, tr, l', db', s')
    requires NoteRef("") !in db'.tombstones && (names.Some? ==> CardSync.UniqueIds(db'.cards))
    ensures Ready(l', db', names)
  {
    hide *;
    PassLeavesSyncable(l, db, s, c, result, log, restored, plan, tr, l', db', s');
    SyncableIsReady(l', db', names);
  }

  lemma PassLeavesSyncable(l: Local, db: Db, s: Snapshot, c: Setting, result: Result, log: Pass, restored: bool, plan: Plan, tr: Trail,
                           l': Local, db': Db, s': Snapshot)
    requires PassDone(l, db, s, c, result, log, restored, plan, tr, l', db', s')
    ensures Syncable(l', db')
  {
    hide LegalPass;
    hide Logs;
    hide Syncable;
    hide NotesDecided;
    hide SnapshotRecords;
    hide Decided;
    hide FollowsPlan;
    hide DeletedAll;
    hide PhasesDone;
    hide Fresh;
    hide Unpublished;
    hide NothingLost;
    hide ForeignCardsKept;
    hide Cleaned;
    hide LocalKeys;
    hide FinalKeys;
  }

  lemma SyncableIsReady(l: Local, db: Db, names: Option<set<string>>)
    requires Syncable(l, db) && NoteRef("") !in db.tombstones && (names.Some? ==> CardSync.UniqueIds(db.cards))
    ensures Ready(l, db, names)
  {
    forall c1, c2 | c1 in l.cards && c2 in l.cards && c1 != c2 && Identity(l, c1) == Identity(l, c2)
      ensures Identity(l, c1).guid == ""
    {
    }
  }
}
