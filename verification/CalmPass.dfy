// What one whole pass leaves, phase by phase, when it had nothing to clean up, delete or
// restore and added no note or card (content_sync.py: sync_content_once).

module CalmPass {
  import opened Prelude
  import opened ServerSpec
  import opened Anki
  import opened Deletes
  import opened Routing
  import opened Cleaning
  import opened Phases
  import opened ContentPass
  import CardSync
  import Clock
  import NoteSync
  import ReviewSync
  import StructureSync
  import StudyDays

  /** One pass that ran to the end: what it found, what it was given, and what it left. */
  datatype Did = Did(
    l: Local, db: Db, s: Snapshot, c: Setting,
    log: Pass, restored: bool, plan: Plan, tr: Trail,
    l': Local, db': Db, s': Snapshot)

  ghost predicate Succeeded(d: Did) {
    PassDone(d.l, d.db, d.s, d.c, Synced, d.log, d.restored, d.plan, d.tr, d.l', d.db', d.s')
  }

  /** Server clocks of one pass, in order; the clocks of the deletes do not matter to a pass that sends none. */
  predicate InOrder(t: Clocks) {
    Clock.SECOND <= t.planned <= t.structurePushed <= t.notesPushed <= t.cardsPushed <= t.reviewsPushed
  }

  /** Every row was received by now, and respects the server's clock bound. */
  ghost predicate RowsGood(db: Db, now: int) {
    && (forall r: GuardedRef :: r in db.records ==>
        Clock.SECOND <= db.records[r].modifiedAt <= now && Clock.ClockBounded(db.records[r].modifiedAt, db.records[r].clientModifiedAt))
    && (forall k :: k in db.cards ==>
        Clock.SECOND <= db.cards[k].modifiedAt <= now && Clock.ClockBounded(db.cards[k].modifiedAt, db.cards[k].clientModifiedAt))
  }

  /**
   * A successful unrouted pass that had nothing to clean up, sent no delete, restored
   * nothing and added no note or card; it may still have pulled, pushed and relayed.
   */
  ghost predicate Calm(d: Did) {
    && Succeeded(d) && d.c.names == None && !d.restored && Syncable(d.l, d.db)
    && CleanedFor(d.l, d.c, d.log) == d.l && d.log.sent == {}
    && d.tr.noted.notes.Keys == d.l.notes.Keys && d.tr.carded.cards.Keys == d.l.cards.Keys
    && InOrder(d.c.clocks) && RowsGood(d.db, d.c.clocks.planned) && CardSync.UniqueIds(d.db.cards)
    && NoteSync.Faithful(d.c.engine.nfc, d.c.engine.rewrite) && Generates(d.c.engine.generate)
  }

  /** The server has no note and no card that the collection lacks. */
  ghost predicate Complete(l: Local, db: Db) {
    && (forall g :: g != "" && NoteRef(g) in db.records ==> HasNote(l, g))
    && (forall k: CardKey :: k in db.cards ==> CardSync.CardNamed(l, k).Some?)
  }

  /** The manifest an unrouted pass plans from. */
  function FullManifest(db: Db, c: Setting): Manifest {
    ManifestOf(db, None, c.clocks.planned)
  }

  // -------------------------------------------------------------- one calm pass --

  /** What an unrouted pass that cleaned nothing, deleted nothing and restored nothing worked from. */
  lemma WholePass(d: Did)
    requires Succeeded(d) && d.c.names == None && !d.restored && CleanedFor(d.l, d.c, d.log) == d.l && d.log.sent == {}
    ensures d.tr.manifest == FullManifest(d.db, d.c) && d.tr.deleted == d.db && !d.tr.restore
    ensures IsCurrent(d.tr.manifest, d.db, None) && PhasesDone(d.c, d.tr, d.l, d.l', d.db') && Syncable(d.l', d.db')
    ensures forall k :: k in d.tr.authoritative <==> k in d.tr.manifest.cards && CardSync.CardNamed(d.l, k).None?
    ensures d.tr.compared == ComparedNotetypes(d.l, {}, d.tr.manifest, d.db.records)
    ensures d.tr.manifest.records.Keys == d.db.records.Keys
    ensures d.s' == BuildState(None, FinalKeys(d.l', {}, ManifestKeys(d.tr.manifest)))
  {
    var m := d.plan.manifest;
    assert Decided(d.plan, d.db, d.s, d.c, d.l) && FollowsPlan(d.plan, d.c, d.tr);
    assert Routed(ManifestOf(d.db, None, d.c.clocks.planned), None) == ManifestOf(d.db, None, d.c.clocks.planned);
    assert CardSync.Shown(d.l, {}) == d.l by { NoSelection(d.l); }
    hide PhasesDone;
    hide Syncable;
    hide Fresh;
    hide IsCurrent;
    hide ManifestOf;
    hide ComparedNotetypes;
    hide Logs;
    hide Cleaned;
    hide NotesDecided;
    hide SnapshotRecords;
    hide ForeignCardsKept;
    hide FinalKeys;
    hide LocalKeys;
    hide CardSync.CardNamed;
  }

  lemma CalmMeans(d: Did)
    requires Calm(d)
    ensures d.tr.manifest == FullManifest(d.db, d.c) && d.tr.deleted == d.db && !d.tr.restore
    ensures IsCurrent(d.tr.manifest, d.db, None) && PhasesDone(d.c, d.tr, d.l, d.l', d.db') && Syncable(d.l', d.db')
    ensures forall k :: k in d.tr.authoritative <==> k in d.tr.manifest.cards && CardSync.CardNamed(d.l, k).None?
    ensures d.tr.compared == ComparedNotetypes(d.l, {}, d.tr.manifest, d.db.records)
    ensures d.tr.manifest.records.Keys == d.db.records.Keys
    ensures d.s' == BuildState(None, FinalKeys(d.l', {}, ManifestKeys(d.tr.manifest)))
  {
    hide Succeeded;
    WholePass(d);
  }

  /** Which part of either side each phase may change. */
  lemma Frames(c: Setting, tr: Trail, l: Local, l': Local, db': Db)
    requires PhasesDone(c, tr, l, l', db')
    ensures tr.structured == l.(decks := tr.structured.decks, notetypes := tr.structured.notetypes)
    ensures tr.noted == tr.structured.(notes := tr.noted.notes) && NoteSync.KeepsIds(l.notes, tr.noted.notes)
    ensures tr.carded == tr.noted.(cards := tr.carded.cards) && tr.reviewed == tr.carded.(revlog := tr.reviewed.revlog)
    ensures l' == tr.reviewed.(decks := l'.decks)
    ensures tr.structuredDb == tr.deleted.(records := tr.structuredDb.records, tombstones := tr.structuredDb.tombstones)
    ensures tr.notedDb == tr.structuredDb.(records := tr.notedDb.records, tombstones := tr.notedDb.tombstones)
    ensures tr.cardedDb == tr.notedDb.(cards := tr.cardedDb.cards, tombstones := tr.cardedDb.tombstones)
    ensures tr.reviewedDb == tr.cardedDb.(reviews := tr.reviewedDb.reviews)
    ensures db' == tr.reviewedDb.(studyDays := db'.studyDays)
  {
    hide *;
    PhasesOf(c, tr, l, l', db');
    HistoryOf(c, tr.manifest, tr.carded, tr.cardedDb, tr.reviewed, tr.reviewedDb, tr.stored, tr.counters, tr.seen, l', db');
    StudyDays.HistoryOnly(tr.carded, tr.cardedDb, c.names, tr.manifest.reviews.Keys, tr.reviewed, tr.reviewedDb, tr.stored);
    StudyDays.IsUploadIsDistinct(tr.reviewed, tr.counters, c.names);
    StudyDays.PushedDays(tr.reviewedDb, tr.counters, c.clocks.reviewsPushed);
    EarlyFrames(c, tr, l);
    LateFrames(tr.reviewed, tr.reviewedDb, tr.counters, tr.seen, c.names, l', db');
  }

  lemma EarlyFrames(c: Setting, tr: Trail, l: Local)
    requires OnlyStructure(l, tr.deleted, tr.structured, tr.structuredDb)
    requires NotesSynced(c, tr.manifest, tr.structured, tr.structuredDb, tr.noted, tr.notedDb)
    requires CardsSynced(c, tr.manifest, tr.restore, tr.authoritative, tr.noted, tr.notedDb, tr.carded, tr.cardedDb)
    ensures tr.structured == l.(decks := tr.structured.decks, notetypes := tr.structured.notetypes)
    ensures tr.noted == tr.structured.(notes := tr.noted.notes) && NoteSync.KeepsIds(l.notes, tr.noted.notes)
    ensures tr.carded == tr.noted.(cards := tr.carded.cards)
    ensures tr.structuredDb == tr.deleted.(records := tr.structuredDb.records, tombstones := tr.structuredDb.tombstones)
    ensures tr.notedDb == tr.structuredDb.(records := tr.notedDb.records, tombstones := tr.notedDb.tombstones)
    ensures tr.cardedDb == tr.notedDb.(cards := tr.cardedDb.cards, tombstones := tr.cardedDb.tombstones)
  {
    hide NoteSync.TakenToOutcome;
    hide NoteSync.InConflict;
    hide CardSync.TakenToOutcome;
    hide CardSync.PlanAt;
    hide BlankCardsKept;
    hide WithGenerated;
    hide SameRow;
  }

  lemma LateFrames(l: Local, db: Db, counters: seq<StudyPut>, seen: seq<StudyPut>, names: Option<set<string>>, l': Local, db': Db)
    requires StudyDays.CountersPass(l, seen, names, l') && StudyDays.DaysStored(db, counters, db')
    ensures l' == l.(decks := l'.decks) && db' == db.(studyDays := db'.studyDays)
  {
  }

  lemma CalmFrames(d: Did)
    requires Calm(d)
    ensures d.tr.structured == d.l.(decks := d.tr.structured.decks, notetypes := d.tr.structured.notetypes)
    ensures d.tr.noted == d.tr.structured.(notes := d.tr.noted.notes) && NoteSync.KeepsIds(d.l.notes, d.tr.noted.notes)
    ensures d.tr.carded == d.tr.noted.(cards := d.tr.carded.cards) && d.tr.reviewed == d.tr.carded.(revlog := d.tr.reviewed.revlog)
    ensures d.l' == d.tr.reviewed.(decks := d.l'.decks)
    ensures d.tr.structuredDb == d.db.(records := d.tr.structuredDb.records, tombstones := d.tr.structuredDb.tombstones)
    ensures d.tr.notedDb == d.tr.structuredDb.(records := d.tr.notedDb.records, tombstones := d.tr.notedDb.tombstones)
    ensures d.tr.cardedDb == d.tr.notedDb.(cards := d.tr.cardedDb.cards, tombstones := d.tr.cardedDb.tombstones)
    ensures d.tr.reviewedDb == d.tr.cardedDb.(reviews := d.tr.reviewedDb.reviews)
    ensures d.db' == d.tr.reviewedDb.(studyDays := d.db'.studyDays)
  {
    hide *;
    CalmMeans(d);
    Frames(d.c, d.tr, d.l, d.l', d.db');
  }

  /** What a calm pass says of the sides it started from. */
  lemma CalmStart(d: Did)
    requires Calm(d)
    ensures NoteSync.DistinctGuids(d.l.notes) && CardSync.DistinctIdentities(d.l) && CardsHaveNotes(d.l)
    ensures NoteSync.NotesWellTyped(d.db.records) && (forall k :: k in d.db.cards ==> k.guid != "") && CardSync.UniqueIds(d.db.cards)
    ensures d.tr.noted.notes.Keys == d.l.notes.Keys && d.tr.carded.cards.Keys == d.l.cards.Keys
    ensures Generates(d.c.engine.generate) && NoteSync.Faithful(d.c.engine.nfc, d.c.engine.rewrite)
    ensures InOrder(d.c.clocks) && RowsGood(d.db, d.c.clocks.planned) && d.c.names == None
    ensures Syncable(d.l, d.db) && forall r :: r in d.l.revlog ==> r > 0
  {
    hide Succeeded;
    hide CleanedFor;
    hide RowsGood;
    hide Generates;
    hide NoteSync.Faithful;
    hide NoteSync.DistinctGuids;
    hide CardSync.DistinctIdentities;
    hide CardsHaveNotes;
    assert Syncable(d.l, d.db);
  }

  /** After the note phase guids and logical cards are still unique. */
  lemma NotedIsFit(d: Did)
    requires Calm(d)
    ensures NoteSync.DistinctGuids(d.tr.noted.notes) && CardSync.DistinctIdentities(d.tr.noted)
    ensures forall c :: Identity(d.tr.noted, c) == Identity(d.l, c)
  {
    hide Calm;
    CalmFrames(d);
    CalmStart(d);
    forall c
      ensures Identity(d.tr.noted, c) == Identity(d.l, c)
    {
    }
  }

  /** A calm pass generates no card. */
  lemma CalmGeneratesNothing(d: Did)
    requires Calm(d)
    ensures WithGenerated(d.c, d.tr.noted) == d.tr.noted && d.c.engine.generate(d.tr.noted) == map[]
  {
    hide *;
    CalmFrames(d);
    CalmStart(d);
    NotedIsFit(d);
    CardKeys(d);
    CalmFields(d);
    NothingAdded(d.c, d.tr.noted);
  }

  /** What leaves the keys of the cards alone is nothing. */
  lemma NothingAdded(c: Setting, l: Local)
    requires Generates(c.engine.generate) && CardSync.DistinctIdentities(l) && NoteSync.DistinctGuids(l.notes)
    requires l.cards.Keys == (l.cards + c.engine.generate(l)).Keys
    ensures WithGenerated(c, l) == l && c.engine.generate(l) == map[]
  {
    var added := c.engine.generate(l);
    assert Generated(l, added);
    assert (l.cards + added).Keys == l.cards.Keys + added.Keys;
    assert added.Keys == {};
  }

  lemma CardKeys(d: Did)
    requires Calm(d)
    ensures d.tr.carded.cards.Keys == (d.tr.noted.cards + d.c.engine.generate(d.tr.noted)).Keys
  {
    hide Calm;
    hide StructuresDone;
    hide OnlyStructure;
    hide NotesSynced;
    hide ReviewSync.HistoryPassIn;
    hide CardSync.TakenToOutcome;
    hide CardSync.PlanAt;
    CalmMeans(d);
  }

  // --------------------------------------------------------------------- notes --

  lemma CalmNote(d: Did, g: string)
    requires Calm(d) && g != ""
    ensures var p, e := NoteSync.PairOf(d.l.notes, d.db.records, g), NoteEnv(d.c, FullManifest(d.db, d.c));
      && NoteSync.WellTyped(p) && NoteSync.PlanOf(d.c.engine.nfc, p, e) != NoteSync.Conflict
      && NoteSync.PairOf(d.l'.notes, d.db'.records, g)
         == NoteSync.Outcome(d.c.engine.nfc, d.c.engine.rewrite, g, p, e, d.tr.structured.notetypes)
  {
    hide Calm;
    CalmMeans(d);
    CalmFrames(d);
    CalmStart(d);
    var l, db, m := d.tr.structured, d.tr.structuredDb, d.tr.manifest;
    var p := NoteSync.PairOf(d.l.notes, d.db.records, g);
    assert OnlyStructure(d.l, d.db, l, db) && NotesSynced(d.c, m, l, db, d.tr.noted, d.tr.notedDb);
    assert SameRow(d.db.records, db.records, NoteRef(g));
    assert NoteSync.PairOf(l.notes, db.records, g) == p;
    assert NoteRef(g) in db.records ==> NoteRef(g) in NoteEntries(m.records).Keys;
    NoteSync.WholeView(l, db.records, NoteEntries(m.records).Keys, g);
    assert NoteSync.TakenToOutcome(d.c.engine.nfc, d.c.engine.rewrite, NoteEnv(d.c, m), l, {}, db.records, NoteEntries(m.records).Keys, g,
                                   d.tr.noted.notes, d.tr.notedDb.records);
    NoteSync.SeeingAllIsPlain(d.c.engine.nfc, d.c.engine.rewrite, g, p, NoteEnv(d.c, m), l.notetypes);
    assert !NoteSync.InConflict(d.c.engine.nfc, NoteEnv(d.c, m), l, {}, db.records, NoteEntries(m.records).Keys, g);
  }

  // --------------------------------------------------------------------- cards --

  /** Cards keep their names while notes keep their guids. */
  lemma SameIdentitiesSameNames(l: Local, l': Local, k: CardKey)
    requires CardSync.DistinctIdentities(l) && l'.cards == l.cards && (forall c :: Identity(l', c) == Identity(l, c)) && k.guid != ""
    ensures CardSync.CardNamed(l', k) == CardSync.CardNamed(l, k)
  {
    forall c ensures CardSync.HasIdentity(l', c, k) <==> CardSync.HasIdentity(l, c, k) { }
    if c :| CardSync.HasIdentity(l, c, k) {
      CardSync.NamedCard(l, c, k);
      CardSync.NamedCard(l', c, k);
    }
  }

  /** Neither the notes before the cards nor the reviews after them rename any. */
  lemma EndNames(d: Did, k: CardKey)
    requires Calm(d) && k.guid != ""
    ensures CardSync.CardNamed(d.l', k) == CardSync.CardNamed(d.tr.carded, k)
    ensures CardSync.CardNamed(d.tr.noted, k) == CardSync.CardNamed(d.l, k)
  {
    hide Calm;
    CalmFrames(d);
    NotedIsFit(d);
    CalmStart(d);
    CalmEnd(d);
    forall c ensures Identity(d.l', c) == Identity(d.tr.carded, c) { }
    SameIdentitiesSameNames(d.l', d.tr.carded, k);
    SameIdentitiesSameNames(d.l, d.tr.noted, k);
  }

  lemma CalmEnd(d: Did)
    requires Calm(d)
    ensures Syncable(d.l', d.db') && NoteSync.DistinctGuids(d.l'.notes) && CardSync.DistinctIdentities(d.l') && CardsHaveNotes(d.l')
  {
    CalmMeans(d);
    hide Calm;
    hide NoteSync.DistinctGuids;
    hide CardSync.DistinctIdentities;
    hide CardsHaveNotes;
  }

  lemma CalmCard(d: Did, k: CardKey)
    requires Calm(d) && k.guid != "" && Complete(d.l, d.db)
    ensures var p, e := CardSync.PairOf(d.l, d.db.cards, k), CardEnv(d.c, FullManifest(d.db, d.c), false);
      && CardSync.PlanOf(d.c.engine.fold, p.local, CardSync.EntryOfPair(p), e, false) != CardSync.Conflict
      && CardSync.PairOf(d.l', d.db'.cards, k) == CardSync.Outcome(d.c.engine.fold, k, p, e, false, d.l.crt)
  {
    hide Calm;
    CalmMeans(d);
    CalmFrames(d);
    CalmStart(d);
    CalmGeneratesNothing(d);
    EndNames(d, k);
    var l, db, m, fold := d.tr.noted, d.tr.notedDb, d.tr.manifest, d.c.engine.fold;
    var e := CardEnv(d.c, m, false);
    assert CardsSynced(d.c, m, false, d.tr.authoritative, l, db, d.tr.carded, d.tr.cardedDb);
    var p := CardSync.PairOf(d.l, d.db.cards, k);
    assert CardSync.PairOf(l, db.cards, k) == p;
    assert m.cards.Keys == db.cards.Keys;
    CardSync.WholeView(l, db.cards, k);
    assert k !in d.tr.authoritative;
    assert CardSync.TakenToOutcome(fold, e, d.tr.authoritative, l, {}, db.cards, m.cards.Keys, k, d.tr.carded, d.tr.cardedDb.cards);
    CardSync.UniqueIdsPullThePlan(fold, e, d.tr.authoritative, l, {}, db.cards, m.cards.Keys, k);
    CardSync.SeeingAllIsPlain(fold, k, p, e, false, d.l.crt);
  }

  // ---------------------------------------------------------- decks and notetypes --

  /** What the structural phases of a calm pass did. */
  lemma CalmStructures(d: Did)
    requires Calm(d)
    ensures var m, e := FullManifest(d.db, d.c), StructureEnv(d.c, FullManifest(d.db, d.c), false);
      && StructureSettled(d.l, d.db, StructureSync.DeckManifest(d.l, {}), StructureSync.Decks(m.records).Keys, e, d.tr.decked, d.tr.deckedDb)
      && StructureSettled(d.tr.decked, d.tr.deckedDb, StructureSync.NotetypeManifest(d.tr.decked, d.tr.compared),
                          StructureSync.Notetypes(m.records, d.tr.compared).Keys, e, d.tr.structured, d.tr.structuredDb)
      && m.records.Keys == d.db.records.Keys
  {
    hide Calm;
    CalmMeans(d);
    CalmStart(d);
    PhasesOf(d.c, d.tr, d.l, d.l', d.db');
    hide PhasesDone;
    hide StructureSettled;
    hide IsCurrent;
    hide Syncable;
    hide RowsGood;
  }

  /** The phases of a pass, one by one. */
  lemma PhasesOf(c: Setting, tr: Trail, l: Local, l': Local, db': Db)
    requires PhasesDone(c, tr, l, l', db')
    ensures StructuresDone(c, tr.manifest, tr.compared, tr.restore, l, tr.deleted, tr.decked, tr.deckedDb, tr.structured, tr.structuredDb)
    ensures OnlyStructure(l, tr.deleted, tr.structured, tr.structuredDb)
    ensures NotesSynced(c, tr.manifest, tr.structured, tr.structuredDb, tr.noted, tr.notedDb)
    ensures CardsSynced(c, tr.manifest, tr.restore, tr.authoritative, tr.noted, tr.notedDb, tr.carded, tr.cardedDb)
    ensures ReviewsSynced(c, tr.manifest, tr.carded, tr.cardedDb, tr.reviewed, tr.reviewedDb, tr.stored, tr.counters, tr.seen, l', db')
  {
    hide StructuresDone;
    hide OnlyStructure;
    hide NotesSynced;
    hide CardsSynced;
    hide ReviewsSynced;
  }

  lemma HistoryOf(c: Setting, m: Manifest, l: Local, db: Db, mid: Local, midDb: Db, stored: set<int>, counters: seq<StudyPut>, seen: seq<StudyPut>,
                  l': Local, db': Db)
    requires ReviewsSynced(c, m, l, db, mid, midDb, stored, counters, seen, l', db')
    ensures ReviewSync.HistoryPassIn(l, db, c.names, m.reviews.Keys, mid, midDb, stored)
    ensures forall id :: !ReviewSync.VisibleConflict(l, db, ReviewSync.ShownReviews(l, c.names), m.reviews.Keys, id)
    ensures StudyDays.Advertises(seen, db, c.names) && StudyDays.IsUpload(counters, mid, c.names)
    ensures db' == Run(midDb, StudyEvents(counters, c.clocks.reviewsPushed))
    ensures StudyDays.CountersPass(mid, seen, c.names, l') && StudyDays.SameBookkeeping(mid.decks, l'.decks)
  {
    hide ReviewSync.HistoryPassIn;
    hide ReviewSync.VisibleConflict;
    hide ReviewSync.HiddenClash;
    hide ReviewSync.ShownReviews;
    hide StudyDays.Advertises;
    hide StudyDays.IsUpload;
    hide StudyDays.CountersPass;
    hide StudyDays.SameBookkeeping;
    hide Run;
  }

  /** The same, field by field. */
  lemma Fields(c: Setting, tr: Trail, l: Local, l': Local, db': Db)
    requires PhasesDone(c, tr, l, l', db')
    ensures l'.notetypes == tr.structured.notetypes && l'.notes == tr.noted.notes && l'.cards == tr.carded.cards
    ensures l'.revlog == tr.reviewed.revlog && l'.crt == l.crt && l'.deckNames == l.deckNames
    ensures tr.reviewed.decks == tr.structured.decks && tr.reviewed.notetypes == tr.structured.notetypes && tr.structured.cards == l.cards && tr.structured.notes == l.notes
    ensures tr.noted.cards == l.cards && tr.reviewed.notes == tr.carded.notes && tr.reviewed.cards == tr.carded.cards && tr.reviewedDb.studyDays == tr.deleted.studyDays
    ensures tr.carded.notes == tr.noted.notes && tr.carded.revlog == l.revlog && tr.reviewed.crt == l.crt
    ensures db'.records == tr.notedDb.records && db'.cards == tr.cardedDb.cards && db'.reviews == tr.reviewedDb.reviews
    ensures tr.cardedDb.reviews == tr.deleted.reviews && tr.cardedDb.studyDays == tr.deleted.studyDays && tr.notedDb.cards == tr.deleted.cards
  {
    hide PhasesDone;
    Frames(c, tr, l, l', db');
  }

  lemma CalmFields(d: Did)
    requires Calm(d)
    ensures d.l'.notetypes == d.tr.structured.notetypes && d.l'.notes == d.tr.noted.notes && d.l'.cards == d.tr.carded.cards
    ensures d.l'.revlog == d.tr.reviewed.revlog && d.l'.crt == d.l.crt && d.l'.deckNames == d.l.deckNames
    ensures d.tr.reviewed.decks == d.tr.structured.decks && d.tr.reviewed.notetypes == d.tr.structured.notetypes && d.tr.structured.cards == d.l.cards && d.tr.structured.notes == d.l.notes
    ensures d.tr.noted.cards == d.l.cards && d.tr.reviewed.notes == d.tr.carded.notes && d.tr.reviewed.cards == d.tr.carded.cards && d.tr.reviewedDb.studyDays == d.db.studyDays
    ensures d.tr.carded.notes == d.tr.noted.notes && d.tr.carded.revlog == d.l.revlog && d.tr.reviewed.crt == d.l.crt
    ensures d.db'.records == d.tr.notedDb.records && d.db'.cards == d.tr.cardedDb.cards && d.db'.reviews == d.tr.reviewedDb.reviews
    ensures d.tr.cardedDb.reviews == d.db.reviews && d.tr.cardedDb.studyDays == d.db.studyDays && d.tr.notedDb.cards == d.db.cards
  {
    hide *;
    CalmMeans(d);
    Fields(d.c, d.tr, d.l, d.l', d.db');
  }

  /** What came after the structural phases left every structure alone. */
  lemma CalmRow(d: Did, r: GuardedRef)
    requires Calm(d) && (r.NoteRef? ==> r.guid == "")
    ensures StructureSync.Lookup(d.db'.records, r) == StructureSync.Lookup(d.tr.structuredDb.records, r)
  {
    hide *;
    CalmMeans(d);
    CalmFields(d);
    PhasesOf(d.c, d.tr, d.l, d.l', d.db');
    NotesKeepRow(d.c, d.tr.manifest, d.tr.structured, d.tr.structuredDb, d.tr.noted, d.tr.notedDb, r);
  }

  lemma NotesKeepRow(c: Setting, m: Manifest, l: Local, db: Db, l': Local, db': Db, r: GuardedRef)
    requires NotesSynced(c, m, l, db, l', db') && (r.NoteRef? ==> r.guid == "")
    ensures StructureSync.Lookup(db'.records, r) == StructureSync.Lookup(db.records, r)
  {
    hide NoteSync.TakenToOutcome;
    hide NoteSync.InConflict;
    assert SameRow(db.records, db'.records, r);
  }

  lemma CalmDefinition(d: Did, r: GuardedRef)
    requires Calm(d)
    ensures StructureSync.LocalOf(d.l', r) == StructureSync.LocalOf(d.tr.structured, r)
  {
    hide *;
    CalmMeans(d);
    CalmFields(d);
    PhasesOf(d.c, d.tr, d.l, d.l', d.db');
    HistoryOf(d.c, d.tr.manifest, d.tr.carded, d.tr.cardedDb, d.tr.reviewed, d.tr.reviewedDb, d.tr.stored, d.tr.counters, d.tr.seen, d.l', d.db');
    CountersKeepDefinitions(d.tr.reviewed, d.tr.seen, d.c.names, d.l', r);
    SameDefinition(d.tr.reviewed, d.tr.structured, r);
  }

  lemma SameDefinition(l: Local, l': Local, r: GuardedRef)
    requires l'.decks == l.decks && l'.notetypes == l.notetypes
    ensures StructureSync.LocalOf(l', r) == StructureSync.LocalOf(l, r)
  {
  }

  /** The counters are no part of what a deck is compared by. */
  lemma CountersKeepDefinitions(l: Local, seen: seq<StudyPut>, names: Option<set<string>>, l': Local, r: GuardedRef)
    requires StudyDays.CountersPass(l, seen, names, l') && StudyDays.SameBookkeeping(l.decks, l'.decks)
    ensures StructureSync.LocalOf(l', r) == StructureSync.LocalOf(l, r) && l'.decks.Keys == l.decks.Keys
  {
    if r.DeckRef? && r.name in l.decks {
      assert l'.decks[r.name].content == l.decks[r.name].content && l'.decks[r.name].mod == l.decks[r.name].mod;
    }
  }

  /** Outside its own kind a structural phase moves nothing. */
  lemma SettledMoves(l: Local, db: Db, local: map<GuardedRef, StructureSync.LocalStructure>, listed: set<GuardedRef>, e: StructureSync.Env,
                     l': Local, db': Db, r: GuardedRef)
    requires StructureSettled(l, db, local, listed, e, l', db')
    ensures r !in local && r !in listed ==> StructureSync.PairOf(l', db'.records, r) == StructureSync.PairOf(l, db.records, r)
    ensures r in local || r in listed ==>
      && StructureSync.Sees(StructureSync.ViewOf(local, db.records, listed, r), StructureSync.PairOf(l, db.records, r))
      && StructureSync.PairOf(l', db'.records, r)
         == StructureSync.OutcomeIn(StructureSync.PairOf(l, db.records, r), StructureSync.ViewOf(local, db.records, listed, r), e, StructureSync.Scaffold(l, r))
      && StructureSync.PlanFor(StructureSync.ViewOf(local, db.records, listed, r), e, StructureSync.Scaffold(l, r)) != StructureSync.Conflict
  {
    assert StructureSync.Progress(l, db.records, local, listed, e, local.Keys + listed, l', db'.records);
    assert !StructureSync.InConflict(l, db.records, local, listed, e, r);
    hide StructureSync.OutcomeIn;
    hide StructureSync.PlanFor;
    hide StructureSync.ViewOf;
    hide StructureSync.Scaffold;
    assert r in local.Keys + listed <==> r in local || r in listed;
    assert StructureSync.PairOf(l', db'.records, r) == StructureSync.PairOf(l', db'.records, r);
  }

  /** A structure seen whole, or absent, goes to its plain outcome. */
  lemma SeenWhole(l: Local, db: Db, local: map<GuardedRef, StructureSync.LocalStructure>, listed: set<GuardedRef>, e: StructureSync.Env,
                  l': Local, db': Db, r: GuardedRef)
    requires StructureSettled(l, db, local, listed, e, l', db')
    requires StructureSync.ViewOf(local, db.records, listed, r) == StructureSync.PairOf(l, db.records, r)
    ensures var q, sc := StructureSync.PairOf(l, db.records, r), StructureSync.Scaffold(l, r);
      && StructureSync.PlanFor(q, e, sc) != StructureSync.Conflict
      && StructureSync.PairOf(l', db'.records, r) == StructureSync.OutcomeIn(q, q, e, sc)
  {
    SettledMoves(l, db, local, listed, e, l', db', r);
    hide StructureSettled;
  }

  /** A deck's way through both structural phases. */
  lemma DeckOutcome(l: Local, db: Db, m: Manifest, ids: set<int>, e: StructureSync.Env, mid: Local, midDb: Db, l': Local, db': Db, r: GuardedRef)
    requires StructureSettled(l, db, StructureSync.DeckManifest(l, {}), StructureSync.Decks(m.records).Keys, e, mid, midDb)
    requires StructureSettled(mid, midDb, StructureSync.NotetypeManifest(mid, ids), StructureSync.Notetypes(m.records, ids).Keys, e, l', db')
    requires m.records.Keys == db.records.Keys && r.DeckRef?
    ensures var q, sc := StructureSync.PairOf(l, db.records, r), StructureSync.Scaffold(l, r);
      && StructureSync.PlanFor(q, e, sc) != StructureSync.Conflict
      && StructureSync.PairOf(l', db'.records, r) == StructureSync.OutcomeIn(q, q, e, sc)
  {
    hide *;
    var local, listed := StructureSync.DeckManifest(l, {}), StructureSync.Decks(m.records).Keys;
    WholeDeck(l, db, m, mid, ids, r);
    SeenWhole(l, db, local, listed, e, mid, midDb, r);
    SettledMoves(mid, midDb, StructureSync.NotetypeManifest(mid, ids), StructureSync.Notetypes(m.records, ids).Keys, e, l', db', r);
  }

  lemma WholeDeck(l: Local, db: Db, m: Manifest, mid: Local, ids: set<int>, r: GuardedRef)
    requires m.records.Keys == db.records.Keys && r.DeckRef?
    ensures StructureSync.ViewOf(StructureSync.DeckManifest(l, {}), db.records, StructureSync.Decks(m.records).Keys, r)
            == StructureSync.PairOf(l, db.records, r)
    ensures r !in StructureSync.NotetypeManifest(mid, ids) && r !in StructureSync.Notetypes(m.records, ids).Keys
  {
    assert InSelection({}, r.name);
  }

  lemma NotetypeOutcome(l: Local, db: Db, m: Manifest, ids: set<int>, e: StructureSync.Env, mid: Local, midDb: Db, l': Local, db': Db, r: GuardedRef)
    requires StructureSettled(l, db, StructureSync.DeckManifest(l, {}), StructureSync.Decks(m.records).Keys, e, mid, midDb)
    requires StructureSettled(mid, midDb, StructureSync.NotetypeManifest(mid, ids), StructureSync.Notetypes(m.records, ids).Keys, e, l', db')
    requires m.records.Keys == db.records.Keys && r.NotetypeRef? && r.notetypeId in ids
    ensures var q, sc := StructureSync.PairOf(l, db.records, r), StructureSync.Scaffold(l, r);
      && StructureSync.PlanFor(q, e, sc) != StructureSync.Conflict
      && StructureSync.PairOf(l', db'.records, r) == StructureSync.OutcomeIn(q, q, e, sc)
  {
    hide *;
    var local, listed := StructureSync.NotetypeManifest(mid, ids), StructureSync.Notetypes(m.records, ids).Keys;
    NoDeck(l, m, r);
    SettledMoves(l, db, StructureSync.DeckManifest(l, {}), StructureSync.Decks(m.records).Keys, e, mid, midDb, r);
    WholeNotetype(l, db, m, mid, midDb, ids, r);
    SeenWhole(mid, midDb, local, listed, e, l', db', r);
    NotetypeIsNoScaffold(l, mid, r);
  }

  lemma NoDeck(l: Local, m: Manifest, r: GuardedRef)
    requires r.NotetypeRef?
    ensures r !in StructureSync.DeckManifest(l, {}) && r !in StructureSync.Decks(m.records).Keys
  {
  }

  lemma WholeNotetype(l: Local, db: Db, m: Manifest, mid: Local, midDb: Db, ids: set<int>, r: GuardedRef)
    requires m.records.Keys == db.records.Keys && r.NotetypeRef? && r.notetypeId in ids
    requires StructureSync.PairOf(mid, midDb.records, r) == StructureSync.PairOf(l, db.records, r)
    ensures StructureSync.ViewOf(StructureSync.NotetypeManifest(mid, ids), midDb.records, StructureSync.Notetypes(m.records, ids).Keys, r)
            == StructureSync.PairOf(mid, midDb.records, r)
  {
    assert StructureSync.Lookup(midDb.records, r) == StructureSync.Lookup(db.records, r);
    assert r in midDb.records <==> r in db.records;
  }

  lemma NotetypeIsNoScaffold(l: Local, l': Local, r: GuardedRef)
    requires r.NotetypeRef?
    ensures StructureSync.Scaffold(l, r) == StructureSync.Scaffold(l', r)
  {
  }

  /** A deck, or a notetype in use, after a calm pass. */
  lemma CalmStructure(d: Did, r: GuardedRef)
    requires Calm(d) && (r.DeckRef? || (r.NotetypeRef? && r.notetypeId in d.tr.compared))
    ensures var q, e, sc := StructureSync.PairOf(d.l, d.db.records, r), StructureEnv(d.c, FullManifest(d.db, d.c), false), StructureSync.Scaffold(d.l, r);
      && StructureSync.PlanFor(q, e, sc) != StructureSync.Conflict
      && StructureSync.PairOf(d.l', d.db'.records, r) == StructureSync.OutcomeIn(q, q, e, sc)
  {
    hide *;
    CalmStructures(d);
    var m, e := FullManifest(d.db, d.c), StructureEnv(d.c, FullManifest(d.db, d.c), false);
    if r.DeckRef? {
      DeckOutcome(d.l, d.db, m, d.tr.compared, e, d.tr.decked, d.tr.deckedDb, d.tr.structured, d.tr.structuredDb, r);
    } else {
      NotetypeOutcome(d.l, d.db, m, d.tr.compared, e, d.tr.decked, d.tr.deckedDb, d.tr.structured, d.tr.structuredDb, r);
    }
    CalmRow(d, r);
    CalmDefinition(d, r);
    SamePair(d.l', d.db', d.tr.structured, d.tr.structuredDb, r);
  }

  lemma SamePair(l: Local, db: Db, l': Local, db': Db, r: GuardedRef)
    requires StructureSync.LocalOf(l, r) == StructureSync.LocalOf(l', r)
    requires StructureSync.Lookup(db.records, r) == StructureSync.Lookup(db'.records, r)
    ensures StructureSync.PairOf(l, db.records, r) == StructureSync.PairOf(l', db'.records, r)
  {
  }

  /** A calm pass uses no notetype that was not compared. */
  lemma ComparedShrinks(d: Did, c: Setting)
    requires Calm(d)
    ensures ComparedNotetypes(d.l', {}, FullManifest(d.db', c), d.db'.records) <= d.tr.compared
  {
    hide Calm;
    CalmMeans(d);
    CalmStart(d);
    CalmFrames(d);
    CalmEnd(d);
    NoSelection(d.l);
    NoSelection(d.l');
    var m, m' := d.tr.manifest, FullManifest(d.db', c);
    forall n | n in d.l'.notes && d.l'.notes[n].guid != ""
      ensures d.l'.notes[n].mid in d.tr.compared
    {
      MidStays(d, n);
      assert n in ScopedNotes(d.l, {}) && d.l.notes[n].guid != "";
    }
    forall r | r in m'.records && r.NoteRef? && r in d.db'.records && d.db'.records[r].content.NoteContent?
      ensures d.db'.records[r].content.notetypeId in d.tr.compared
    {
      RecordMid(d, r);
    }
  }

  lemma MidStays(d: Did, n: int)
    requires Calm(d) && n in d.l'.notes && d.l'.notes[n].guid != ""
    ensures n in d.l.notes && d.l.notes[n].guid == d.l'.notes[n].guid && d.l.notes[n].mid == d.l'.notes[n].mid
  {
    hide Calm;
    CalmFrames(d);
    CalmStart(d);
    CalmEnd(d);
    var g := d.l'.notes[n].guid;
    CalmNote(d, g);
    NoteSync.NamedNote(d.l'.notes, n, g);
    NoteSync.NamedNote(d.l.notes, n, g);
  }

  lemma RecordMid(d: Did, r: GuardedRef)
    requires Calm(d) && r.NoteRef? && r in d.db'.records && d.db'.records[r].content.NoteContent?
    ensures d.db'.records[r].content.notetypeId in d.tr.compared
  {
    hide *;
    CalmMeans(d);
    if r.guid == "" {
      CalmRow(d, r);
      PhasesOf(d.c, d.tr, d.l, d.l', d.db');
      StructureKeepsNote(d.l, d.tr.deleted, d.tr.structured, d.tr.structuredDb, r);
      RowIsCompared(d.l, d.tr.manifest, d.db.records, d.db'.records, r);
    } else {
      CalmNote(d, r.guid);
      CalmStart(d);
      NoteIsCompared(d.c.engine, d.l, d.tr.manifest, d.db.records, d.l'.notes, d.db'.records, r.guid,
                     NoteEnv(d.c, FullManifest(d.db, d.c)), d.tr.structured.notetypes);
    }
  }

  lemma StructureKeepsNote(l: Local, db: Db, l': Local, db': Db, r: GuardedRef)
    requires OnlyStructure(l, db, l', db') && r.NoteRef?
    ensures StructureSync.Lookup(db'.records, r) == StructureSync.Lookup(db.records, r)
  {
    assert r == NoteRef(r.guid) && SameRow(db.records, db'.records, NoteRef(r.guid));
  }

  lemma RowIsCompared(l: Local, m: Manifest, records: map<GuardedRef, Record>, records': map<GuardedRef, Record>, r: GuardedRef)
    requires m.records.Keys == records.Keys && r.NoteRef? && r in records' && records'[r].content.NoteContent?
    requires StructureSync.Lookup(records', r) == StructureSync.Lookup(records, r)
    ensures records'[r].content.notetypeId in ComparedNotetypes(l, {}, m, records)
  {
    assert r in m.records;
  }

  lemma NoteIsCompared(engine: Engine, l: Local, m: Manifest, records: map<GuardedRef, Record>, notes': map<int, NoteRow>,
                       records': map<GuardedRef, Record>, g: string, e: NoteSync.Env, notetypes: map<int, NotetypeRow>)
    requires m.records.Keys == records.Keys && NoteRef(g) in records' && records'[NoteRef(g)].content.NoteContent?
    requires NoteSync.DistinctGuids(l.notes) && g != ""
    requires var p := NoteSync.PairOf(l.notes, records, g);
      && NoteSync.WellTyped(p)
      && NoteSync.PairOf(notes', records', g) == NoteSync.Outcome(engine.nfc, engine.rewrite, g, p, e, notetypes)
    ensures records'[NoteRef(g)].content.notetypeId in ComparedNotetypes(l, {}, m, records)
  {
    var pair, pair' := NoteSync.PairOf(l.notes, records, g), NoteSync.PairOf(notes', records', g);
    NoSelection(l);
    if pair'.server == pair.server {
      assert NoteRef(g) in m.records;
    } else {
      assert pair.local.Some?;
      var n :| NoteSync.HasGuid(l.notes, n, g);
      NoteSync.NamedNote(l.notes, n, g);
      assert n in ScopedNotes(l, {});
    }
  }

  // ------------------------------------------------------------------ reviews, counters --

  /** After a calm pass both sides hold the same reviews, and none contradicts. */
  lemma CalmReviews(d: Did)
    requires Calm(d)
    ensures d.l'.revlog.Keys == d.db'.reviews.Keys
    ensures forall id :: !ReviewSync.Conflicting(d.l', d.db', id)
  {
    hide *;
    CalmMeans(d);
    CalmFields(d);
    PhasesOf(d.c, d.tr, d.l, d.l', d.db');
    HistoryOf(d.c, d.tr.manifest, d.tr.carded, d.tr.cardedDb, d.tr.reviewed, d.tr.reviewedDb, d.tr.stored, d.tr.counters, d.tr.seen, d.l', d.db');
    ListedReviews(d.db, d.c);
    CalmStart(d);
    CalmEnd(d);
    SoundReviews(d.l, d.l', d.tr.carded);
    PositiveReviews(d.l, d.db, d.tr.cardedDb);
    HistoryEndsAgreed(d.tr.carded, d.tr.cardedDb, d.tr.reviewed, d.tr.reviewedDb, d.tr.stored);
    SameReviews(d.tr.reviewed, d.tr.reviewedDb, d.l', d.db');
  }

  lemma SoundReviews(l: Local, l': Local, carded: Local)
    requires CardSync.DistinctIdentities(l') && CardsHaveNotes(l') && (forall r :: r in l.revlog ==> r > 0)
    requires carded.cards == l'.cards && carded.notes == l'.notes && carded.revlog == l.revlog
    ensures ReviewSync.Sound(carded)
  {
    forall c ensures Identity(carded, c) == Identity(l', c) { }
  }

  lemma PositiveReviews(l: Local, db: Db, db': Db)
    requires Syncable(l, db) && db'.reviews == db.reviews
    ensures (forall r :: r in l.revlog ==> r > 0) && forall r :: r in db'.reviews ==> r > 0
  {
  }

  lemma ListedReviews(db: Db, c: Setting)
    ensures FullManifest(db, c).reviews.Keys == db.reviews.Keys
  {
    forall i ensures i in FullManifest(db, c).reviews <==> i in db.reviews { }
  }

  /** A whole review pass without a conflict leaves one history. */
  lemma HistoryEndsAgreed(l: Local, db: Db, l': Local, db': Db, stored: set<int>)
    requires ReviewSync.HistoryPassIn(l, db, None, db.reviews.Keys, l', db', stored) && ReviewSync.Sound(l)
    requires (forall id :: id in db.reviews ==> id > 0) && forall id :: !ReviewSync.VisibleConflict(l, db, ReviewSync.ShownReviews(l, None), db.reviews.Keys, id)
    ensures l'.revlog.Keys == db'.reviews.Keys
    ensures forall id :: !ReviewSync.Conflicting(l', db', id)
  {
    hide ReviewSync.HistoryPassIn;
    ReviewSync.SeeingAllIsPlain(l, db, l', db', stored);
    assert forall id :: !ReviewSync.Conflicting(l, db, id);
    assert ReviewSync.Downloaded(l, db, l') && ReviewSync.Uploaded(l, db, db');
    forall id | id in l'.revlog && id in db'.reviews
      ensures !ReviewSync.Conflicting(l', db', id)
    {
      if id in l.revlog {
        ReviewSync.KeptRowAgrees(l, db, l', id, ReviewSync.LocalDigest(l, id));
        assert !ReviewSync.Conflicting(l, db, id);
      } else {
        ReviewSync.PulledRowAgrees(l, db, l', id);
      }
    }
  }

  lemma SameReviews(l: Local, db: Db, l': Local, db': Db)
    requires l'.revlog == l.revlog && l'.cards == l.cards && l'.notes == l.notes && l'.crt == l.crt && db'.reviews == db.reviews
    ensures forall id :: ReviewSync.Conflicting(l', db', id) <==> ReviewSync.Conflicting(l, db, id)
  {
    forall c ensures Identity(l', c) == Identity(l, c) { }
  }

  /** Nothing the server lists exceeds what the collection's deck of that name holds. */
  ghost predicate CountersCovered(l: Local, db: Db) {
    forall r: StudyPut :: r.key in db.studyDays && db.studyDays[r.key].value == r.counters && r.key.deck in l.decks && r.key.deck != "" ==>
      exists held :: StudyDays.Holds(l, r.key.deck, held) && StudyDays.Precedes(r, held)
  }

  lemma CalmCounters(d: Did)
    requires Calm(d)
    ensures CountersCovered(d.l', d.db')
  {
    hide *;
    CalmMeans(d);
    CalmFields(d);
    CalmStart(d);
    PhasesOf(d.c, d.tr, d.l, d.l', d.db');
    HistoryOf(d.c, d.tr.manifest, d.tr.carded, d.tr.cardedDb, d.tr.reviewed, d.tr.reviewedDb, d.tr.stored, d.tr.counters, d.tr.seen, d.l', d.db');
    CountersEndCovered(d.tr.reviewed, d.tr.cardedDb, d.tr.reviewedDb, d.tr.seen, d.tr.counters, d.c.clocks.reviewsPushed, d.l', d.db');
  }

  lemma CountersEndCovered(l: Local, db: Db, db1: Db, seen: seq<StudyPut>, counters: seq<StudyPut>, now: int, l': Local, db': Db)
    requires StudyDays.Advertises(seen, db, None) && StudyDays.IsUpload(counters, l, None) && StudyDays.CountersPass(l, seen, None, l')
    requires db1.studyDays == db.studyDays && db' == Run(db1, StudyEvents(counters, now))
    ensures CountersCovered(l', db')
  {
    assert StudyDays.Advertises(seen, db1, None);
    assert l'.decks.Keys == l.decks.Keys;
    hide Run;
    hide StudyDays.CountersPass;
    hide StudyDays.Advertises;
    hide StudyDays.IsUpload;
    forall r: StudyPut | r.key in db'.studyDays && db'.studyDays[r.key].value == r.counters && r.key.deck in l'.decks && r.key.deck != ""
      ensures exists held :: StudyDays.Holds(l', r.key.deck, held) && StudyDays.Precedes(r, held)
    {
      var held := StudyDays.NothingExceeds(l, db1, seen, counters, None, now, l', r);
    }
  }

  // ------------------------------------------------------ what stays missing --

  /** The card phase renames no card, leaves the cards of unnamed notes, and drops no row. */
  lemma CardsKeepRows(c: Setting, m: Manifest, restore: bool, authoritative: set<CardKey>, l: Local, db: Db, l': Local, db': Db)
    requires CardsSynced(c, m, restore, authoritative, l, db, l', db') && WithGenerated(c, l) == l
    ensures l'.cards.Keys == l.cards.Keys && (forall x :: Identity(l', x) == Identity(l, x)) && BlankCardsKept(l, l')
    ensures forall k :: k in db.cards && k.guid != "" ==> k in db'.cards
  {
    hide WithGenerated;
    forall k | k in db.cards && k.guid != ""
      ensures k in db'.cards
    {
      assert CardSync.TakenToOutcome(c.engine.fold, CardEnv(c, m, restore), authoritative, l, ScopeOf(c.names), db.cards, m.cards.Keys, k, l', db'.cards);
      assert CardSync.PairOf(l', db'.cards, k).server.Some?;
    }
  }

  lemma CalmCards(d: Did)
    requires Calm(d)
    ensures d.l'.cards.Keys == d.l.cards.Keys && (forall x :: Identity(d.l', x) == Identity(d.l, x)) && BlankCardsKept(d.l, d.l')
    ensures forall k :: k in d.db.cards ==> k in d.db'.cards
  {
    hide *;
    CalmMeans(d);
    CalmFields(d);
    CalmStart(d);
    NotedIsFit(d);
    CalmGeneratesNothing(d);
    PhasesOf(d.c, d.tr, d.l, d.l', d.db');
    CardsKeepRows(d.c, d.tr.manifest, d.tr.restore, d.tr.authoritative, d.tr.noted, d.tr.notedDb, d.tr.carded, d.tr.cardedDb);
    SameIdentities(d.tr.carded, d.l');
    BlankStay(d.l, d.tr.noted, d.tr.carded, d.l');
  }

  lemma SameIdentities(l: Local, l': Local)
    requires l'.cards == l.cards && l'.notes == l.notes
    ensures forall x :: Identity(l', x) == Identity(l, x)
  {
  }

  lemma BlankStay(l: Local, noted: Local, carded: Local, l': Local)
    requires BlankCardsKept(noted, carded) && noted.cards == l.cards && l'.cards == carded.cards
    requires forall x :: Identity(noted, x) == Identity(l, x)
    ensures BlankCardsKept(l, l')
  {
  }

  lemma SameNamed(l: Local, l': Local, k: CardKey)
    requires l'.cards.Keys == l.cards.Keys && forall x :: Identity(l', x) == Identity(l, x)
    ensures CardSync.CardNamed(l', k).Some? <==> CardSync.CardNamed(l, k).Some?
  {
    if c :| CardSync.HasIdentity(l, c, k) { assert CardSync.HasIdentity(l', c, k); }
    if c :| CardSync.HasIdentity(l', c, k) { assert CardSync.HasIdentity(l, c, k); }
  }

  lemma CalmHasNote(d: Did, g: string)
    requires Calm(d)
    ensures HasNote(d.l', g) <==> HasNote(d.l, g)
  {
    hide *;
    CalmFields(d);
    CalmStart(d);
    CalmFrames(d);
    SameGuids(d.l, d.l', g);
  }

  lemma SameGuids(l: Local, l': Local, g: string)
    requires NoteSync.KeepsIds(l.notes, l'.notes) && l'.notes.Keys == l.notes.Keys
    ensures HasNote(l', g) <==> HasNote(l, g)
  {
    if n :| n in l.notes && l.notes[n].guid == g { assert n in l'.notes; }
    if n :| n in l'.notes && l'.notes[n].guid == g { assert n in l.notes; }
  }

  lemma ServerNoteStays(nfc: string -> string, rewrite: NoteSync.Text -> NoteSync.Text, l: Local, db: Db, l': Local, db': Db, g: string,
                        e: NoteSync.Env, notetypes: map<int, NotetypeRow>)
    requires var p := NoteSync.PairOf(l.notes, db.records, g);
      && NoteSync.WellTyped(p)
      && NoteSync.PairOf(l'.notes, db'.records, g) == NoteSync.Outcome(nfc, rewrite, g, p, e, notetypes)
    ensures NoteRef(g) in db.records ==> NoteRef(g) in db'.records
  {
    var p' := NoteSync.PairOf(l'.notes, db'.records, g);
    assert NoteRef(g) in db.records ==> p'.server.Some?;
  }

  lemma CalmRowsStay(d: Did, g: string)
    requires Calm(d) && g != ""
    ensures NoteRef(g) in d.db.records ==> NoteRef(g) in d.db'.records
  {
    hide *;
    CalmNote(d, g);
    ServerNoteStays(d.c.engine.nfc, d.c.engine.rewrite, d.l, d.db, d.l', d.db', g, NoteEnv(d.c, FullManifest(d.db, d.c)), d.tr.structured.notetypes);
  }

  lemma CompleteBefore(d: Did)
    requires Calm(d) && Complete(d.l', d.db')
    ensures Complete(d.l, d.db)
  {
    hide Calm;
    CalmCards(d);
    hide HasNote;
    hide CardSync.CardNamed;
    hide Identity;
    hide BlankCardsKept;
    forall g | g != "" && NoteRef(g) in d.db.records
      ensures HasNote(d.l, g)
    {
      CalmRowsStay(d, g);
      CalmHasNote(d, g);
    }
    forall k: CardKey | k in d.db.cards
      ensures CardSync.CardNamed(d.l, k).Some?
    {
      SameNamed(d.l, d.l', k);
    }
  }
}
