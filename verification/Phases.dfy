// The other phases of a content pass (content_sync.py, sync_content_once from the
// deck pass to media), and what each is proved to do.

module Phases {
  import opened Prelude
  import opened ServerSpec
  import opened ServerRuns
  import opened Anki
  import opened Server
  import opened Deletes
  import opened Routing
  import opened Cleaning
  import CardSync
  import Clock
  import Media
  import NoteSync
  import ReviewSync
  import StructureSync
  import StudyDays

  datatype Policy = Policy(newestWins: bool, allowLargeDeletes: bool, defaultDeck: string)

  datatype Clocks = Clocks(planned: int, deleted: int, structurePushed: int, notesPushed: int, cardsPushed: int, reviewsPushed: int, wallClock: nat)

  /** `Interrupted`: an error no phase expects, such as a refused new deck or a failed transfer. */
  datatype Result = Synced | DeletionRefused(deletes: set<Ref>) | Conflicted(resource: string) | Interrupted(resource: string)

  /** What Anki does on its own: text normalisation, card generation, rows taken along, notetype schemas, media references. */
  datatype Engine = Engine(
    nfc: string -> string, rewrite: NoteSync.Text -> NoteSync.Text, fold: string -> string,
    generate: Local -> map<int, CardRow>, cascade: (Local, Ref) -> Taken, fieldsOf: Content -> nat, defaults: StructureSync.Defaults,
    references: (Local, set<string>) -> seq<string>)

  /** Everything one pass is given; `names` are its routes. */
  datatype Setting = Setting(names: Option<set<string>>, policy: Policy, clocks: Clocks, engine: Engine)

  /** What a restore leaves alone: every note with a guid, and every card anyone has studied. */
  ghost predicate NothingLost(l: Local, l': Local) {
    && (forall n :: n in l.notes && l.notes[n].guid != "" ==> n in l'.notes && l'.notes[n] == l.notes[n])
    && (forall c :: c in l.cards && !CardSync.Pristine(l.cards[c].scheduling) ==> c in l'.cards && l'.cards[c] == l.cards[c])
  }

  // ------------------------------------------------------------------ the other phases --

  ghost predicate SameRow<K, V>(a: map<K, V>, b: map<K, V>, k: K) {
    (k in a <==> k in b) && (k in a ==> a[k] == b[k])
  }

  lemma SameRows<K(!new), V>(a: map<K, V>, b: map<K, V>)
    requires forall k :: SameRow(a, b, k)
    ensures a == b
  {
    forall k ensures k in a <==> k in b { assert SameRow(a, b, k); }
    forall k | k in a ensures a[k] == b[k] { assert SameRow(a, b, k); }
  }

  // Decks and notetypes.

  /** The notetypes of the notes on either side; unused stock types are left alone. */
  function ComparedNotetypes(l: Local, scope: set<string>, m: Manifest, records: map<GuardedRef, Record>): set<int> {
    (set n | n in ScopedNotes(l, scope) && l.notes[n].guid != "" :: l.notes[n].mid) +
    (set r | r in m.records && r.NoteRef? && r in records && records[r].content.NoteContent? :: records[r].content.notetypeId)
  }

  /** Notes, cards and reviews are as they were, on both sides. */
  ghost predicate OnlyStructure(l: Local, db: Db, l': Local, db': Db) {
    && l' == l.(decks := l'.decks, notetypes := l'.notetypes)
    && db' == db.(records := db'.records, tombstones := db'.tombstones)
    && forall g: string {:trigger NoteRef(g)} :: SameRow(db.records, db'.records, NoteRef(g))
  }

  /** A pass that handled no note changed none. */
  lemma NoNoteMoved(l: Local, db: Db, l': Local, db': Db, handled: set<GuardedRef>)
    requires l' == l.(decks := l'.decks, notetypes := l'.notetypes) && StructureSync.OnlyRecords(db, db')
    requires (forall r :: r in handled ==> !r.NoteRef?)
    requires forall r: GuardedRef :: r !in handled ==> StructureSync.Lookup(db'.records, r) == StructureSync.Lookup(db.records, r)
    ensures OnlyStructure(l, db, l', db')
  {
    forall g: string
      ensures SameRow(db.records, db'.records, NoteRef(g))
    {
      var r: GuardedRef := NoteRef(g);
      assert StructureSync.Lookup(db'.records, r) == StructureSync.Lookup(db.records, r);
    }
  }

  lemma DecksHandled(l: Local, scope: set<string>, remote: map<GuardedRef, Entry>, handled: set<GuardedRef>)
    requires handled <= StructureSync.DeckManifest(l, scope).Keys + StructureSync.Decks(remote).Keys
    ensures forall r :: r in handled ==> r.DeckRef?
  {
  }

  lemma NotetypesHandled(l: Local, ids: set<int>, remote: map<GuardedRef, Entry>, handled: set<GuardedRef>)
    requires handled <= StructureSync.NotetypeManifest(l, ids).Keys + StructureSync.Notetypes(remote, ids).Keys
    ensures forall r :: r in handled ==> r.NotetypeRef?
  {
  }

  /** The listed notetypes still stand after the deck pass. */
  lemma NotetypesStand(remote: map<GuardedRef, Entry>, ids: set<int>, records: map<GuardedRef, Record>, records': map<GuardedRef, Record>,
                       handled: set<GuardedRef>)
    requires RecordsListed(remote, records) && forall r :: r in handled ==> r.DeckRef?
    requires forall r: GuardedRef :: r !in handled ==> StructureSync.Lookup(records', r) == StructureSync.Lookup(records, r)
    ensures RecordsListed(StructureSync.Notetypes(remote, ids), records')
  {
    forall r: GuardedRef | r in StructureSync.Notetypes(remote, ids)
      ensures r in records' && remote[r] == EntryOf(records'[r])
    {
      assert StructureSync.Lookup(records', r) == StructureSync.Lookup(records, r);
    }
  }

  lemma OnlyStructureTwice(l: Local, db: Db, l1: Local, db1: Db, l2: Local, db2: Db)
    requires OnlyStructure(l, db, l1, db1) && OnlyStructure(l1, db1, l2, db2)
    ensures OnlyStructure(l, db, l2, db2)
  {
    forall g: string ensures SameRow(db.records, db2.records, NoteRef(g)) {
      assert SameRow(db.records, db1.records, NoteRef(g)) && SameRow(db1.records, db2.records, NoteRef(g));
    }
  }

  function StructureEnv(c: Setting, m: Manifest, preferServer: bool): StructureSync.Env {
    StructureSync.Env(c.policy.newestWins, preferServer, m.serverTime, c.clocks.structurePushed, c.clocks.wallClock, c.engine.defaults)
  }

  /** One structural pass took everything it compared to its outcome, and nothing is in conflict. */
  ghost predicate StructureSettled(l: Local, db: Db, local: map<GuardedRef, StructureSync.LocalStructure>, listed: set<GuardedRef>,
                                   e: StructureSync.Env, l': Local, db': Db)
  {
    && StructureSync.OnlyRecords(db, db')
    && StructureSync.Progress(l, db.records, local, listed, e, local.Keys + listed, l', db'.records)
    && (forall r :: !StructureSync.InConflict(l, db.records, local, listed, e, r))
    && StructuresWon(l, db, local, listed, e, l', db')
  }

  /** Every deck or notetype compared went where definitions and times say. */
  ghost predicate StructuresWon(l: Local, db: Db, local: map<GuardedRef, StructureSync.LocalStructure>, listed: set<GuardedRef>,
                                e: StructureSync.Env, l': Local, db': Db)
  {
    forall r: GuardedRef :: r in local || r in listed ==> StructureSync.StructureDecided(l, db.records, local, listed, e, r, l', db'.records, false)
  }

  /** Decks and then notetypes settled. */
  ghost predicate StructuresDone(c: Setting, m: Manifest, compared: set<int>, preferServer: bool, l: Local, db: Db, mid: Local, midDb: Db,
                                 l': Local, db': Db)
  {
    var e := StructureSync.Env(c.policy.newestWins, preferServer, m.serverTime, c.clocks.structurePushed, c.clocks.wallClock, c.engine.defaults);
    && StructureSettled(l, db, StructureSync.DeckManifest(l, ScopeOf(c.names)), StructureSync.Decks(m.records).Keys, e, mid, midDb)
    && StructureSettled(mid, midDb, StructureSync.NotetypeManifest(mid, compared), StructureSync.Notetypes(m.records, compared).Keys, e, l', db')
  }

  lemma AllSettled(l: Local, db: Db, local: map<GuardedRef, StructureSync.LocalStructure>, listed: set<GuardedRef>, e: StructureSync.Env,
                   handled: set<GuardedRef>, conflicts: set<GuardedRef>, l': Local, db': Db)
    requires StructureSync.OnlyRecords(db, db')
    requires StructureSync.Progress(l, db.records, local, listed, e, handled, l', db'.records) && handled == local.Keys + listed
    requires conflicts == {} && forall r :: r in conflicts <==> StructureSync.InConflict(l, db.records, local, listed, e, r)
    requires forall r: GuardedRef :: r in handled ==> StructureSync.StructureDecided(l, db.records, local, listed, e, r, l', db'.records, r in conflicts)
    ensures StructureSettled(l, db, local, listed, e, l', db')
  {
    hide StructureSync.StructureDecided;
    hide StructureSync.InConflict;
    forall r ensures !StructureSync.InConflict(l, db.records, local, listed, e, r) { assert r !in conflicts; }
  }

  /** Decks, then the notetypes in use; a problem ends the pass. */
  method SyncStructures(col: Collection, server: Handler, m: Manifest, c: Setting, compared: set<int>, preferServer: bool)
    returns (result: Result, ghost mid: Local, ghost midDb: Db)
    requires IsCurrent(m, server.State(), c.names)
    modifies col`decks, col`notetypes, server
    ensures !result.DeletionRefused?
    ensures OnlyStructure(old(col.State()), old(server.State()), col.State(), server.State())
    ensures preferServer ==> server.records == old(server.records)
    ensures result.Synced? ==>
      StructuresDone(c, m, compared, preferServer, old(col.State()), old(server.State()), mid, midDb, col.State(), server.State())
  {
    ghost var l, db := col.State(), server.State();
    var e := StructureEnv(c, m, preferServer);
    assert RecordsListed(StructureSync.Decks(m.records), server.records);
    CurrentLists(m, db, c.names);
    hide IsCurrent;
    hide OnlyStructure;
    hide StructureSettled;
    hide RecordsListed;
    hide StructureSync.Progress;
    hide StructureSync.DeckManifest;
    hide StructureSync.NotetypeManifest;
    hide StructureSync.Decks;
    hide StructureSync.Notetypes;
    hide StructureSync.Lookup;
    hide StructureSync.IsRefused;
    hide StructureSync.InConflict;
    var decks, local, handled := StructureSync.SyncDecksOnce(col, server, m.records, ScopeOf(c.names), e);
    mid, midDb := col.State(), server.State();
    DecksHandled(l, ScopeOf(c.names), m.records, handled);
    StructureSync.OnlyHandledMoves(l, db.records, local, StructureSync.Decks(m.records).Keys, e, handled, mid, server.records);
    NoNoteMoved(l, db, mid, midDb, handled);
    NotetypesStand(m.records, compared, db.records, server.records, handled);
    if decks.Raised? {
      return Interrupted("deck"), mid, midDb;
    }
    if decks.conflicts != {} {
      return Conflicted("deck"), mid, midDb;
    }
    AllSettled(l, db, local, StructureSync.Decks(m.records).Keys, e, handled, decks.conflicts, mid, midDb);
    var notetypes, local', handled' := StructureSync.SyncNotetypesOnce(col, server, m.records, compared, e, c.engine.fieldsOf);
    NotetypesHandled(mid, compared, m.records, handled');
    StructureSync.OnlyHandledMoves(mid, midDb.records, local', StructureSync.Notetypes(m.records, compared).Keys, e, handled', col.State(), server.records);
    NoNoteMoved(mid, midDb, col.State(), server.State(), handled');
    OnlyStructureTwice(l, db, mid, midDb, col.State(), server.State());
    if notetypes.Raised? {
      return Interrupted("notetype"), mid, midDb;
    }
    if notetypes.conflicts != {} {
      return Conflicted("notetype"), mid, midDb;
    }
    AllSettled(mid, midDb, local', StructureSync.Notetypes(m.records, compared).Keys, e, handled', notetypes.conflicts, col.State(), server.State());
    result := Synced;
  }

  lemma CurrentLists(m: Manifest, db: Db, names: Option<set<string>>)
    requires IsCurrent(m, db, names)
    ensures RecordsListed(m.records, db.records)
  {
  }

  // Notes.

  /** A note with this guid is among those a pass over `scope` looks at. */
  ghost predicate NoteShown(l: Local, scope: set<string>, guid: string) {
    exists n :: n in l.notes && l.notes[n].guid == guid && NoteInScope(l, scope, n)
  }

  lemma NamedIffHas(l: Local, scope: set<string>, g: string)
    requires g != ""
    ensures NoteSync.NoteNamed(l.notes, g).Some? <==> HasNote(l, g)
    ensures NoteSync.NoteNamed(ScopedNotes(l, scope), g).Some? <==> NoteShown(l, scope, g)
  {
    if HasNote(l, g) {
      var n :| n in l.notes && l.notes[n].guid == g;
      assert NoteSync.HasGuid(l.notes, n, g);
    }
    if n :| NoteSync.HasGuid(l.notes, n, g) { }
    hide InScope;
    var shown := ScopedNotes(l, scope);
    if NoteShown(l, scope, g) {
      var n :| n in l.notes && l.notes[n].guid == g && NoteInScope(l, scope, n);
      assert NoteSync.HasGuid(shown, n, g);
    }
    if n :| NoteSync.HasGuid(shown, n, g) {
      assert NoteInScope(l, scope, n);
    }
  }

  /** Notes the server does not have stay wherever the collection had them, and are published if in scope. */
  ghost predicate NotesSettled(l: Local, db: Db, scope: set<string>, l': Local, db': Db) {
    forall g :: g != "" && NoteRef(g) !in db.records ==>
      (HasNote(l', g) <==> HasNote(l, g)) && (NoteRef(g) in db'.records <==> NoteShown(l, scope, g))
  }

  function NoteEntries(remote: map<GuardedRef, Entry>): map<GuardedRef, Entry> {
    map r | r in remote && r.NoteRef? :: remote[r]
  }

  /** A note no server row answers is published if it is in scope. */
  lemma UnansweredNote(engine: Engine, e: NoteSync.Env, l: Local, scope: set<string>, db: Db, listed: set<GuardedRef>,
                       l': Local, db': Db, g: string)
    requires g != "" && NoteRef(g) !in db.records
    requires NoteSync.TakenToOutcome(engine.nfc, engine.rewrite, e, l, scope, db.records, listed, g, l'.notes, db'.records)
    ensures HasNote(l', g) <==> HasNote(l, g)
    ensures NoteRef(g) in db'.records <==> NoteShown(l, scope, g)
  {
    NamedIffHas(l, scope, g);
    NamedIffHas(l', scope, g);
    hide NoteShown;
    hide HasNote;
  }

  /** Under the restore predicate a note both sides hold is skipped, and others are pulled. */
  lemma RestoredNote(engine: Engine, e: NoteSync.Env, l: Local, db: Db, listed: set<GuardedRef>, l': Local, db': Db, g: string)
    requires RestoreSafe(l, db) && NoteSync.NotesWellTyped(db.records) && g != ""
    requires NoteRef(g) in db.records ==> NoteRef(g) in listed
    requires NoteSync.TakenToOutcome(engine.nfc, engine.rewrite, e, l, {}, db.records, listed, g, l'.notes, db'.records)
    ensures SameRow(db.records, db'.records, NoteRef(g))
    ensures NoteSync.NoteNamed(l.notes, g).Some? ==> NoteSync.NoteNamed(l'.notes, g) == NoteSync.NoteNamed(l.notes, g)
  {
    NoteSync.WholeView(l, db.records, listed, g);
    var p := NoteSync.PairOf(l.notes, db.records, g);
    NoteSync.SeeingAllIsPlain(engine.nfc, engine.rewrite, g, p, e, l.notetypes);
    if p.local.Some? {
      assert NoteSync.InSync(p);
    }
    assert NoteSync.PairOf(l'.notes, db'.records, g).server == p.server;
  }

  /** Every note with a guid is the row it was. */
  ghost predicate NotesKept(notes: map<int, NoteRow>, notes': map<int, NoteRow>) {
    forall n :: n in notes && notes[n].guid != "" ==> n in notes' && notes'[n] == notes[n]
  }

  lemma NamedNotesKept(notes: map<int, NoteRow>, notes': map<int, NoteRow>)
    requires NoteSync.DistinctGuids(notes) && NoteSync.DistinctGuids(notes') && NoteSync.KeepsIds(notes, notes')
    requires forall g :: g != "" && NoteSync.NoteNamed(notes, g).Some? ==> NoteSync.NoteNamed(notes', g) == NoteSync.NoteNamed(notes, g)
    ensures NotesKept(notes, notes')
  {
    forall n | n in notes && notes[n].guid != ""
      ensures n in notes' && notes'[n] == notes[n]
    {
      NoteSync.NamedNote(notes, n, notes[n].guid);
      NoteSync.NamedNote(notes', n, notes[n].guid);
    }
  }

  /** What the later phases need of both sides. */
  ghost predicate Syncable(l: Local, db: Db) {
    && NoteSync.DistinctGuids(l.notes) && CardSync.DistinctIdentities(l)
    && CardsHaveNotes(l) && (forall r :: r in l.revlog ==> r > 0)
    && NoteSync.NotesWellTyped(db.records)
    && (forall k :: k in db.cards ==> k.guid != "") && (forall r :: r in db.reviews ==> r > 0)
  }

  lemma IdentitiesFollowNotes(l: Local, l': Local)
    requires NoteSync.KeepsIds(l.notes, l'.notes) && l'.cards == l.cards
    requires forall c :: c in l.cards ==> l.cards[c].nid in l.notes
    ensures forall c :: Identity(l', c) == Identity(l, c)
    ensures CardSync.DistinctIdentities(l) ==> CardSync.DistinctIdentities(l')
  {
    assert forall c :: c in l.cards ==> Identity(l', c) == Identity(l, c);
  }

  /** All guids of one note pass at once. */
  lemma NotesPassed(engine: Engine, e: NoteSync.Env, l: Local, names: Option<set<string>>, db: Db, m: Manifest, l': Local, db': Db)
    requires NoteSync.NotesWellTyped(db.records) && NoteSync.DistinctGuids(l.notes) && NoteSync.DistinctGuids(l'.notes)
    requires NoteSync.KeepsIds(l.notes, l'.notes)
    requires names.None? ==> forall g: string {:trigger NoteRef(g)} :: NoteRef(g) in db.records ==> NoteRef(g) in m.records
    requires forall r: GuardedRef :: !r.NoteRef? || r.guid == "" ==>
      (r in db'.records <==> r in db.records) && (r in db'.records ==> db'.records[r] == db.records[r])
    requires forall g :: g != "" ==>
      NoteSync.TakenToOutcome(engine.nfc, engine.rewrite, e, l, ScopeOf(names), db.records, NoteEntries(m.records).Keys, g, l'.notes, db'.records)
    ensures NotesSettled(l, db, ScopeOf(names), l', db')
    ensures names.None? && RestoreSafe(l, db) ==> db'.records == db.records && NotesKept(l.notes, l'.notes)
  {
    var listed := NoteEntries(m.records).Keys;
    forall g | g != "" && NoteRef(g) !in db.records
      ensures HasNote(l', g) <==> HasNote(l, g)
      ensures NoteRef(g) in db'.records <==> NoteShown(l, ScopeOf(names), g)
    {
      UnansweredNote(engine, e, l, ScopeOf(names), db, listed, l', db', g);
    }
    if names.None? && RestoreSafe(l, db) {
      forall g | g != ""
        ensures SameRow(db.records, db'.records, NoteRef(g))
        ensures NoteSync.NoteNamed(l.notes, g).Some? ==> NoteSync.NoteNamed(l'.notes, g) == NoteSync.NoteNamed(l.notes, g)
      {
        assert NoteRef(g) in db.records ==> NoteRef(g) in listed;
        assert ScopeOf(names) == {};
        RestoredNote(engine, e, l, db, listed, l', db', g);
      }
      forall r: GuardedRef ensures SameRow(db.records, db'.records, r) {
        if r.NoteRef? && r.guid != "" { assert r == NoteRef(r.guid); }
      }
      SameRows(db.records, db'.records);
      NamedNotesKept(l.notes, l'.notes);
    }
  }

  function NoteEnv(c: Setting, m: Manifest): NoteSync.Env {
    NoteSync.Env(c.policy.newestWins, m.serverTime, c.clocks.notesPushed, c.clocks.wallClock)
  }

  /** The note pass took every guid to its outcome, and nothing is in conflict. */
  ghost predicate NotesSynced(c: Setting, m: Manifest, l: Local, db: Db, l': Local, db': Db) {
    var listed := NoteEntries(m.records).Keys;
    && l' == l.(notes := l'.notes) && NoteSync.KeepsIds(l.notes, l'.notes) && NoteSync.OnlyRecords(db, db')
    && (forall r: GuardedRef :: !r.NoteRef? || r.guid == "" ==> SameRow(db.records, db'.records, r))
    && (forall g :: g != "" ==>
        NoteSync.TakenToOutcome(c.engine.nfc, c.engine.rewrite, NoteEnv(c, m), l, ScopeOf(c.names), db.records, listed, g, l'.notes, db'.records))
    && (forall g :: g != "" ==> !NoteSync.InConflict(c.engine.nfc, NoteEnv(c, m), l, ScopeOf(c.names), db.records, listed, g))
    && NotesWon(c, m.serverTime, l, db, listed, l', db')
  }

  /** Every guid went where texts and times say, under the policy and the clocks of the pass. */
  ghost predicate NotesWon(c: Setting, now: int, l: Local, db: Db, listed: set<GuardedRef>, l': Local, db': Db) {
    var e := NoteSync.Env(c.policy.newestWins, now, c.clocks.notesPushed, c.clocks.wallClock);
    forall g :: g != "" ==>
      NoteSync.GuidDecided(c.engine.nfc, c.engine.rewrite, e, l, ScopeOf(c.names), db.records, listed, g, l'.notes, db'.records, false)
  }

  lemma NoneReported(c: Setting, m: Manifest, l: Local, db: Db, l': Local, db': Db, conflicts: seq<string>)
    requires conflicts == [] && forall g :: g != "" ==>
      NoteSync.GuidDecided(c.engine.nfc, c.engine.rewrite, NoteEnv(c, m), l, ScopeOf(c.names), db.records, NoteEntries(m.records).Keys, g,
                           l'.notes, db'.records, g in conflicts)
    ensures NotesWon(c, m.serverTime, l, db, NoteEntries(m.records).Keys, l', db')
  {
    hide NoteSync.GuidDecided;
    var e := NoteEnv(c, m);
    forall g | g != ""
      ensures NoteSync.GuidDecided(c.engine.nfc, c.engine.rewrite, e, l, ScopeOf(c.names), db.records, NoteEntries(m.records).Keys, g, l'.notes, db'.records, false)
    {
      assert (g in conflicts) == false;
    }
  }

  method SyncNotes(col: Collection, server: Handler, m: Manifest, c: Setting)
    returns (ok: bool)
    requires Syncable(col.State(), server.State()) && c.clocks.notesPushed != Clock.GO_ZERO_TIME
    requires RecordsListed(NoteEntries(m.records), server.records)
    requires c.names.None? ==> forall g: string {:trigger NoteRef(g)} :: NoteRef(g) in server.records ==> NoteRef(g) in m.records
    modifies col`notes, server
    ensures Syncable(col.State(), server.State()) && NoteSync.OnlyRecords(old(server.State()), server.State())
    ensures NoteSync.KeepsIds(old(col.notes), col.notes)
    ensures NotesSettled(old(col.State()), old(server.State()), ScopeOf(c.names), col.State(), server.State())
    ensures c.names.None? && RestoreSafe(old(col.State()), old(server.State())) ==>
      server.records == old(server.records) && NotesKept(old(col.notes), col.notes)
    ensures ok ==> NotesSynced(c, m, old(col.State()), old(server.State()), col.State(), server.State())
  {
    hide NoteSync.TakenToOutcome;
    hide NoteSync.InConflict;
    hide NotesSettled;
    hide RestoreSafe;
    ghost var l, db := col.State(), server.State();
    var e := NoteEnv(c, m);
    var conflicts := NoteSync.SyncNotesOnce(col, server, NoteEntries(m.records), ScopeOf(c.names), c.engine.nfc, c.engine.rewrite, e);
    NotesPassed(c.engine, e, l, c.names, db, m, col.State(), server.State());
    IdentitiesFollowNotes(l, col.State());
    ok := conflicts == [];
    if ok {
      forall g | g != "" ensures !NoteSync.InConflict(c.engine.nfc, e, l, ScopeOf(c.names), db.records, NoteEntries(m.records).Keys, g) { assert g !in conflicts; }
      NoneReported(c, m, l, db, col.State(), server.State(), conflicts);
    }
  }

  // Cards.

  /** What Anki may generate for notes that were pulled: new cards, none of them a duplicate. */
  ghost predicate Generated(l: Local, added: map<int, CardRow>) {
    && added.Keys !! l.cards.Keys && (forall c :: c in added ==> c > 0 && added[c].nid in l.notes)
    && CardSync.DistinctIdentities(l.(cards := l.cards + added))
  }

  ghost predicate Generates(generate: Local -> map<int, CardRow>) {
    forall l :: CardSync.DistinctIdentities(l) && NoteSync.DistinctGuids(l.notes) ==> Generated(l, generate(l))
  }

  /** What the server must win is never pushed, whatever the pulls generated for it. */
  lemma AuthoritativeRowStays(fold: string -> string, k: CardKey, e: CardSync.Env, authoritative: set<CardKey>, l: Local, scope: set<string>,
                              cards: map<CardKey, Card>, listed: set<CardKey>, l': Local, cards': map<CardKey, Card>)
    requires CardSync.TakenToOutcome(fold, e, authoritative, l, scope, cards, listed, k, l', cards')
    requires e.preferServer || k in authoritative
    ensures SameRow(cards, cards', k)
  {
    assert CardSync.PairOf(l', cards', k).server == CardSync.PairOf(l, cards, k).server;
  }

  /** Every card of a note without a guid is the row it was; more cards may have come. */
  ghost predicate BlankCardsKept(l: Local, l': Local) {
    forall c :: c in l.cards && Identity(l, c).guid == "" ==> c in l'.cards && l'.cards[c] == l.cards[c]
  }

  function CardEnv(c: Setting, m: Manifest, preferServer: bool): CardSync.Env {
    CardSync.Env(c.policy.newestWins, preferServer, m.serverTime, c.clocks.cardsPushed, c.clocks.wallClock, c.policy.defaultDeck)
  }

  /** The collection with the cards Anki generates. */
  function WithGenerated(c: Setting, l: Local): Local {
    l.(cards := l.cards + c.engine.generate(l))
  }

  /** The card pass took every logical card to its outcome, and nothing is in conflict. */
  ghost predicate CardsSynced(c: Setting, m: Manifest, preferServer: bool, authoritative: set<CardKey>, l: Local, db: Db, l': Local, db': Db) {
    var g, e := WithGenerated(c, l), CardEnv(c, m, preferServer);
    && l' == l.(cards := l'.cards) && l'.cards.Keys == g.cards.Keys == l.cards.Keys + c.engine.generate(l).Keys && CardSync.OnlyCards(db, db')
    && (forall x :: Identity(l', x) == Identity(g, x)) && BlankCardsKept(g, l')
    && (forall k: CardKey :: k.guid != "" ==>
        CardSync.TakenToOutcome(c.engine.fold, e, authoritative, g, ScopeOf(c.names), db.cards, m.cards.Keys, k, l', db'.cards))
    && (forall k: CardKey :: k.guid != "" ==>
        CardSync.PlanAt(c.engine.fold, g, ScopeOf(c.names), db.cards, m.cards.Keys, e, authoritative, k) != CardSync.Conflict)
    && CardsWon(c, m.serverTime, preferServer, authoritative, g, db, m.cards.Keys, l', db')
  }

  /** Every logical card went where states and times say, under the policy, the authority and the clocks of the pass. */
  ghost predicate CardsWon(c: Setting, now: int, restore: bool, authoritative: set<CardKey>, l: Local, db: Db, listed: set<CardKey>, l': Local, db': Db) {
    var e := CardSync.Env(c.policy.newestWins, restore, now, c.clocks.cardsPushed, c.clocks.wallClock, c.policy.defaultDeck);
    forall k: CardKey :: k.guid != "" ==>
      CardSync.KeyDecided(c.engine.fold, e, authoritative, l, ScopeOf(c.names), db.cards, listed, k, l', db'.cards, false)
  }

  lemma GeneratedIsSyncable(c: Setting, l: Local, db: Db)
    requires Syncable(l, db) && Generates(c.engine.generate)
    ensures Syncable(WithGenerated(c, l), db) && Generated(l, c.engine.generate(l))
    ensures BlankCardsKept(l, WithGenerated(c, l))
  {
    assert Generated(l, c.engine.generate(l));
    var g := WithGenerated(c, l);
    assert forall x :: x in l.cards ==> Identity(g, x) == Identity(l, x) && g.cards[x] == l.cards[x];
  }

  /** Anki's own card generation, then the card pass. */
  method SyncCards(col: Collection, server: Handler, m: Manifest, c: Setting, preferServer: bool, authoritative: set<CardKey>)
    returns (ok: bool)
    requires Syncable(col.State(), server.State()) && Generates(c.engine.generate) && c.clocks.cardsPushed != Clock.GO_ZERO_TIME
    requires CardSync.CardsListed(m.cards, server.cards)
    modifies col`cards, server
    ensures Syncable(col.State(), server.State()) && CardSync.OnlyCards(old(server.State()), server.State())
    ensures forall k: CardKey :: k.guid != "" && (preferServer || k in authoritative) ==> SameRow(old(server.cards), server.cards, k)
    ensures BlankCardsKept(old(col.State()), col.State())
    ensures ok ==> CardsSynced(c, m, preferServer, authoritative, old(col.State()), old(server.State()), col.State(), server.State())
  {
    ghost var before, db := col.State(), server.State();
    GeneratedIsSyncable(c, before, db);
    col.cards := col.cards + c.engine.generate(col.State());
    ghost var l := col.State();
    assert l == WithGenerated(c, before);
    var e := CardEnv(c, m, preferServer);
    hide Generates;
    hide Generated;
    hide CardSync.TakenToOutcome;
    hide CardSync.PlanAt;
    hide CardSync.CardsListed;
    hide WithGenerated;
    hide BlankCardsKept;
    var conflicts := CardSync.SyncCardsOnce(col, server, m.cards, ScopeOf(c.names), c.engine.fold, e, authoritative);
    forall k: CardKey | k.guid != "" && (preferServer || k in authoritative)
      ensures SameRow(db.cards, server.cards, k)
    {
      AuthoritativeRowStays(c.engine.fold, k, e, authoritative, l, ScopeOf(c.names), db.cards, m.cards.Keys, col.State(), server.cards);
    }
    CardsStaySyncable(before, l, db, col.State(), server.State());
    ok := conflicts == [];
    if ok {
      forall k: CardKey | k.guid != ""
        ensures CardSync.PlanAt(c.engine.fold, l, ScopeOf(c.names), db.cards, m.cards.Keys, e, authoritative, k) != CardSync.Conflict
      {
        assert k !in conflicts;
      }
      assert CardsWon(c, m.serverTime, preferServer, authoritative, l, db, m.cards.Keys, col.State(), server.State()) by { hide CardSync.KeyDecided; }
    }
  }

  lemma CardsStaySyncable(before: Local, l: Local, db: Db, l': Local, db': Db)
    requires Syncable(l, db) && CardSync.OnlyCards(db, db') && BlankCardsKept(before, l)
    requires l' == l.(cards := l'.cards) && l'.cards.Keys == l.cards.Keys && CardSync.DistinctIdentities(l')
    requires forall x :: x in l.cards ==> l'.cards[x].nid == l.cards[x].nid && Identity(l', x) == Identity(l, x)
    requires forall x :: x in l.cards && Identity(l, x).guid == "" ==> l'.cards[x] == l.cards[x]
    requires forall k :: k in db'.cards ==> k.guid != ""
    requires before == l.(cards := before.cards) && forall x :: x in before.cards ==> x in l.cards && before.cards[x] == l.cards[x]
    ensures Syncable(l', db') && BlankCardsKept(l, l') && BlankCardsKept(before, l')
    ensures forall x :: Identity(l', x) == Identity(l, x)
  {
    assert forall x :: x in before.cards ==> Identity(before, x) == Identity(l, x);
  }

  // Reviews.

  /** The review phase merged the history, and then the counters of every selected deck. */
  ghost predicate ReviewsSynced(c: Setting, m: Manifest, l: Local, db: Db, mid: Local, midDb: Db, stored: set<int>,
                                counters: seq<StudyPut>, seen: seq<StudyPut>, l': Local, db': Db)
  {
    var shown := ReviewSync.ShownReviews(l, c.names);
    && ReviewSync.HistoryPassIn(l, db, c.names, m.reviews.Keys, mid, midDb, stored)
    && (forall id :: !ReviewSync.VisibleConflict(l, db, shown, m.reviews.Keys, id) && !ReviewSync.HiddenClash(l, db, shown, m.reviews.Keys, id))
    && StudyDays.Advertises(seen, db, c.names) && StudyDays.IsUpload(counters, mid, c.names)
    && db' == Run(midDb, StudyEvents(counters, c.clocks.reviewsPushed))
    && StudyDays.CountersPass(mid, seen, c.names, l') && StudyDays.SameBookkeeping(mid.decks, l'.decks)
  }

  /** The review phase leaves both sides fit for another pass. */
  lemma ReviewsStaySyncable(m: Manifest, names: Option<set<string>>, l: Local, db: Db, mid: Local, midDb: Db, stored: set<int>, l': Local, db': Db)
    requires Syncable(l, db) && ReviewSync.ReviewsListed(m.reviews, db)
    requires ReviewSync.HistoryPassIn(l, db, names, m.reviews.Keys, mid, midDb, stored)
    requires l' == mid.(decks := l'.decks) && db' == midDb.(studyDays := db'.studyDays)
    ensures Syncable(l', db')
  {
    hide ReviewSync.HistoryPassIn;
    hide ReviewSync.ReviewsListed;
    StudyDays.HistoryOnly(l, db, names, m.reviews.Keys, mid, midDb, stored);
    ReviewsArePositive(l, db, m, names, mid, midDb, stored);
    assert forall x :: Identity(l', x) == Identity(l, x);
  }

  lemma ReviewsArePositive(l: Local, db: Db, m: Manifest, names: Option<set<string>>, mid: Local, midDb: Db, stored: set<int>)
    requires (forall r :: r in l.revlog ==> r > 0) && (forall r :: r in db.reviews ==> r > 0)
    requires ReviewSync.ReviewsListed(m.reviews, db) && ReviewSync.HistoryPassIn(l, db, names, m.reviews.Keys, mid, midDb, stored)
    ensures (forall r :: r in mid.revlog ==> r > 0) && (forall r :: r in midDb.reviews ==> r > 0)
  {
    hide ReviewSync.Attachment;
    hide ReviewSync.VisibleConflict;
    hide ReviewSync.HiddenClash;
  }

  method SyncReviews(col: Collection, server: Handler, m: Manifest, c: Setting)
    returns (ok: bool, ghost mid: Local, ghost midDb: Db, ghost stored: set<int>, ghost counters: seq<StudyPut>, ghost seen: seq<StudyPut>)
    requires Syncable(col.State(), server.State()) && c.clocks.reviewsPushed != Clock.GO_ZERO_TIME
    requires ReviewSync.ReviewsListed(m.reviews, server.State()) && StudyDays.DaysListed(m.studyDays, server.State(), c.names)
    modifies col`revlog, col`decks, server
    ensures Syncable(col.State(), server.State())
    ensures server.records == old(server.records) && server.cards == old(server.cards)
    ensures ok ==> ReviewsSynced(c, m, old(col.State()), old(server.State()), mid, midDb, stored, counters, seen, col.State(), server.State())
  {
    hide Syncable;
    hide Run;
    hide ReviewSync.HistoryPassIn;
    hide ReviewSync.ReviewsListed;
    hide ReviewSync.VisibleConflict;
    hide ReviewSync.HiddenClash;
    hide StudyDays.DaysListed;
    hide StudyDays.CountersPass;
    hide StudyDays.SameBookkeeping;
    hide StudyDays.Advertises;
    hide StudyDays.IsUpload;
    ghost var l, db := col.State(), server.State();
    SyncableIsSound(l, db);
    var result;
    result, stored, mid, midDb, counters, seen :=
      StudyDays.SyncReviewsOnce(col, server, m, c.names, c.policy.newestWins, false, c.clocks.reviewsPushed, c.clocks.wallClock);
    ReviewsStaySyncable(m, c.names, l, db, mid, midDb, stored, col.State(), server.State());
    ok := result.Synced?;
  }

  lemma SyncableIsSound(l: Local, db: Db)
    requires Syncable(l, db)
    ensures ReviewSync.Sound(l)
  {
  }

  // Media.

  /** What becomes of each planned transfer. */
  datatype Transfers = Transfers(up: nat -> Media.Fate, down: nat -> Media.Fate)

  /** Every referenced file the directory held is on the server. */
  ghost predicate MediaPublished(fold: string -> string, refs: seq<string>, held: set<string>, server: set<string>) {
    forall f :: f in refs && fold(f) in Media.Keys(fold, held) ==> fold(f) in Media.Keys(fold, server)
  }

  lemma UploadsPublish(fold: string -> string, refs: seq<string>, server: set<string>, local: set<string>, uploads: seq<string>,
                       missing: seq<string>, server': set<string>)
    requires Media.Planned(fold, Media.SeqSet(refs), server, local, uploads, missing)
    requires server' == server + Media.Names(uploads, Media.Below(|uploads|))
    ensures MediaPublished(fold, refs, local, server')
  {
    forall f | f in refs && fold(f) in Media.Keys(fold, local)
      ensures fold(f) in Media.Keys(fold, server')
    {
      if fold(f) in Media.Keys(fold, server) {
        var s :| s in server && fold(s) == fold(f);
        assert s in server';
      } else {
        assert f in Media.SeqSet(refs) && f in uploads;
        var i: nat :| i < |uploads| && uploads[i] == f;
        assert f in Media.Names(uploads, Media.Below(|uploads|));
      }
    }
  }

  method SyncMedia(server: Media.Store, local: Media.Store, fold: string -> string, refs: seq<string>, transfers: Transfers) returns (ok: bool)
    requires server != local
    modifies server, local
    ensures ok ==> MediaPublished(fold, refs, old(local.files), server.files) && local.files >= old(local.files)
  {
    var listed := ListOf(server.files);
    assert Media.SeqSet(listed) == server.files by { forall f ensures f in Media.SeqSet(listed) <==> f in server.files { } }
    var result, uploads, missing := Media.SyncMediaOnce(server, local, fold, refs, listed, transfers.up, transfers.down);
    ok := result.Synced?;
    if ok {
      UploadsPublish(fold, refs, old(server.files), old(local.files), uploads, missing, server.files);
    }
  }

  // ------------------------------------------------------------- the phases in a row --

  /** The server publishes nothing of this client. */
  ghost predicate Unpublished(db: Db, db': Db) {
    db'.records == db.records && forall k: CardKey :: k.guid != "" ==> SameRow(db.cards, db'.cards, k)
  }

  ghost predicate SameContent(l: Local, l': Local) {
    l'.notes == l.notes && l'.cards == l.cards && l'.revlog == l.revlog && l'.crt == l.crt && l'.deckNames == l.deckNames
  }

  lemma SameContentSameNames(l: Local, l': Local)
    requires SameContent(l, l') && CardSync.DistinctIdentities(l)
    ensures forall c :: Identity(l', c) == Identity(l, c)
    ensures CardSync.DistinctIdentities(l')
    ensures forall k: CardKey :: k.guid != "" ==> CardSync.CardNamed(l', k) == CardSync.CardNamed(l, k)
    ensures forall g :: HasNote(l', g) <==> HasNote(l, g)
    ensures forall scope, g :: NoteShown(l', scope, g) <==> NoteShown(l, scope, g)
  {
    forall k: CardKey | k.guid != ""
      ensures CardSync.CardNamed(l', k) == CardSync.CardNamed(l, k)
    {
      forall c ensures CardSync.HasIdentity(l', c, k) <==> CardSync.HasIdentity(l, c, k) { }
      if c :| CardSync.HasIdentity(l, c, k) {
        CardSync.NamedCard(l, c, k);
        CardSync.NamedCard(l', c, k);
      }
    }
    forall scope, n | n in l.notes
      ensures NoteInScope(l', scope, n) <==> NoteInScope(l, scope, n)
    {
    }
    forall scope, g
      ensures NoteShown(l', scope, g) <==> NoteShown(l, scope, g)
    {
      if n :| n in l.notes && l.notes[n].guid == g && NoteInScope(l, scope, n) { assert NoteInScope(l', scope, n); }
      if n :| n in l'.notes && l'.notes[n].guid == g && NoteInScope(l', scope, n) { assert NoteInScope(l, scope, n); }
    }
  }

  /** The structural phases change nothing the others look at, notetypes apart. */
  lemma AfterStructure(l: Local, db: Db, m: Manifest, names: Option<set<string>>, l': Local, db': Db)
    requires Syncable(l, db) && IsCurrent(m, db, names) && OnlyStructure(l, db, l', db')
    ensures Syncable(l', db') && SameContent(l, l') && db'.cards == db.cards && db'.reviews == db.reviews && db'.studyDays == db.studyDays
    ensures RecordsListed(NoteEntries(m.records), db'.records)
    ensures names.None? ==> forall g: string {:trigger NoteRef(g)} :: NoteRef(g) in db'.records ==> NoteRef(g) in m.records
    ensures RestoreSafe(l, db) ==> RestoreSafe(l', db')
    ensures forall scope, l2, db2 :: NotesSettled(l', db', scope, l2, db2) ==> NotesSettled(l, db, scope, l2, db2)
  {
    SameContentSameNames(l, l');
    forall g: string
      ensures NoteRef(g) in db'.records <==> NoteRef(g) in db.records
      ensures NoteRef(g) in db.records ==> db'.records[NoteRef(g)] == db.records[NoteRef(g)]
    {
      assert SameRow(db.records, db'.records, NoteRef(g));
    }
    forall r | r in NoteEntries(m.records)
      ensures r in db'.records && m.records[r] == EntryOf(db'.records[r])
    {
      assert r == NoteRef(r.guid);
    }
    hide CardSync.CardNamed;
    hide NoteSync.NoteNamed;
    hide NoteShown;
    hide HasNote;
  }

  /** The review phase needs nothing but what the card phase left alone. */
  lemma AfterCards(m: Manifest, db: Db, names: Option<set<string>>, l': Local, db': Db)
    requires IsCurrent(m, db, names) && db'.reviews == db.reviews && db'.studyDays == db.studyDays && Syncable(l', db')
    ensures ReviewSync.ReviewsListed(m.reviews, db') && StudyDays.DaysListed(m.studyDays, db', names)
  {
  }

  /** What holds at every point of a pass. */
  ghost predicate SoFar(l: Local, db: Db, l': Local, db': Db, preferServer: bool, authoritative: set<CardKey>) {
    && (preferServer ==> Unpublished(db, db') && NothingLost(l, l'))
    && forall k: CardKey :: k.guid != "" && k in authoritative ==> SameRow(db.cards, db'.cards, k)
  }

  lemma StructureDone(l: Local, db: Db, l1: Local, db1: Db, preferServer: bool, authoritative: set<CardKey>)
    requires OnlyStructure(l, db, l1, db1) && (preferServer ==> db1.records == db.records)
    ensures SoFar(l, db, l1, db1, preferServer, authoritative)
  {
  }

  lemma NotesDone(l: Local, db: Db, l1: Local, db1: Db, l2: Local, db2: Db, preferServer: bool, authoritative: set<CardKey>)
    requires OnlyStructure(l, db, l1, db1) && (preferServer ==> db1.records == db.records)
    requires l2 == l1.(notes := l2.notes) && NoteSync.OnlyRecords(db1, db2)
    requires preferServer ==> db2.records == db1.records && NotesKept(l1.notes, l2.notes)
    ensures SoFar(l, db, l2, db2, preferServer, authoritative)
  {
  }

  lemma CardsDone(l: Local, db: Db, l1: Local, db1: Db, l2: Local, db2: Db, l3: Local, db3: Db, preferServer: bool, authoritative: set<CardKey>)
    requires OnlyStructure(l, db, l1, db1) && (preferServer ==> db1.records == db.records)
    requires l2 == l1.(notes := l2.notes) && NoteSync.OnlyRecords(db1, db2) && NoteSync.KeepsIds(l1.notes, l2.notes)
    requires preferServer ==> db2.records == db1.records && NotesKept(l1.notes, l2.notes)
    requires l3 == l2.(cards := l3.cards) && CardSync.OnlyCards(db2, db3) && BlankCardsKept(l2, l3)
    requires forall k: CardKey :: k.guid != "" && (preferServer || k in authoritative) ==> SameRow(db2.cards, db3.cards, k)
    requires CardsHaveNotes(l) && CardSync.DistinctIdentities(l) && (preferServer ==> RestoreSafe(l, db))
    ensures SoFar(l, db, l3, db3, preferServer, authoritative)
  {
    assert SameContent(l, l1);
    SameContentSameNames(l, l1);
    IdentitiesFollowNotes(l1, l2);
    if preferServer {
      assert NotesKept(l.notes, l3.notes);
      forall c | c in l.cards && !CardSync.Pristine(l.cards[c].scheduling)
        ensures c in l3.cards && l3.cards[c] == l.cards[c]
      {
        StudiedCardIsBlank(l, db, c);
        assert c in l2.cards && Identity(l2, c).guid == "";
      }
    }
  }

  /** Under the restore predicate only cards of notes without a guid have been studied. */
  lemma StudiedCardIsBlank(l: Local, db: Db, c: int)
    requires RestoreSafe(l, db) && CardSync.DistinctIdentities(l) && c in l.cards && !CardSync.Pristine(l.cards[c].scheduling)
    ensures Identity(l, c).guid == ""
  {
    var k := Identity(l, c);
    if k.guid != "" {
      assert CardSync.HasIdentity(l, c, k);
      CardSync.NamedCard(l, c, k);
    }
  }

  lemma ReviewsDone(l: Local, db: Db, l3: Local, db3: Db, l4: Local, db4: Db, preferServer: bool, authoritative: set<CardKey>)
    requires SoFar(l, db, l3, db3, preferServer, authoritative)
    requires l4.notes == l3.notes && l4.cards == l3.cards && db4.records == db3.records && db4.cards == db3.cards
    ensures SoFar(l, db, l4, db4, preferServer, authoritative)
  {
    assert preferServer ==> Unpublished(db, db4);
    assert preferServer ==> NothingLost(l, l4);
  }

  lemma SettledStays(l: Local, db: Db, scope: set<string>, a: Local, aDb: Db, b: Local, bDb: Db)
    requires NotesSettled(l, db, scope, a, aDb) && a.notes == b.notes && aDb.records == bDb.records
    ensures NotesSettled(l, db, scope, b, bDb)
  {
    forall g ensures HasNote(b, g) <==> HasNote(a, g) { }
  }

  lemma StartsWith(l: Local, db: Db)
    requires Syncable(l, db)
    ensures CardsHaveNotes(l) && CardSync.DistinctIdentities(l)
  {
  }

  lemma CardsStillListed(m: Manifest, db: Db, names: Option<set<string>>, db': Db)
    requires IsCurrent(m, db, names) && db'.cards == db.cards
    ensures CardSync.CardsListed(m.cards, db'.cards)
  {
  }

  /** The states a pass goes through, and what its review phase moved; for the specification only. */
  datatype Trail = Trail(
    manifest: Manifest, compared: set<int>, restore: bool, authoritative: set<CardKey>,
    deleted: Db,                         // after the deletes, when the phases begin
    decked: Local, deckedDb: Db,         // after the decks
    structured: Local, structuredDb: Db, // after the notetypes
    noted: Local, notedDb: Db,           // after the notes
    carded: Local, cardedDb: Db,         // after the cards
    reviewed: Local, reviewedDb: Db,     // after the review history
    stored: set<int>, counters: seq<StudyPut>, seen: seq<StudyPut>)

  /** What a pass that succeeded did, phase by phase, from the cleaned collection on. */
  ghost predicate PhasesDone(c: Setting, tr: Trail, cleaned: Local, l': Local, db': Db) {
    var m := tr.manifest;
    && StructuresDone(c, m, tr.compared, tr.restore, cleaned, tr.deleted, tr.decked, tr.deckedDb, tr.structured, tr.structuredDb)
    && OnlyStructure(cleaned, tr.deleted, tr.structured, tr.structuredDb)
    && NotesSynced(c, m, tr.structured, tr.structuredDb, tr.noted, tr.notedDb)
    && CardsSynced(c, m, tr.restore, tr.authoritative, tr.noted, tr.notedDb, tr.carded, tr.cardedDb)
    && ReviewsSynced(c, m, tr.carded, tr.cardedDb, tr.reviewed, tr.reviewedDb, tr.stored, tr.counters, tr.seen, l', db')
  }

  /** What notes, cards and reviews need once the structures are done. */
  ghost predicate Structured(m: Manifest, c: Setting, l: Local, db: Db, preferServer: bool, l1: Local, db1: Db) {
    && Syncable(l, db) && IsCurrent(m, db, c.names) && OnlyStructure(l, db, l1, db1) && (preferServer ==> db1.records == db.records)
    && (preferServer ==> c.names.None? && RestoreSafe(l, db))
    && Clock.GO_ZERO_TIME !in {c.clocks.notesPushed, c.clocks.cardsPushed, c.clocks.reviewsPushed} && Generates(c.engine.generate)
  }

  lemma StructuredMeans(m: Manifest, c: Setting, l: Local, db: Db, preferServer: bool, l1: Local, db1: Db)
    requires Structured(m, c, l, db, preferServer, l1, db1)
    ensures Syncable(l, db) && IsCurrent(m, db, c.names) && OnlyStructure(l, db, l1, db1) && Generates(c.engine.generate)
    ensures preferServer ==> db1.records == db.records && c.names.None? && RestoreSafe(l, db)
    ensures c.clocks.notesPushed != Clock.GO_ZERO_TIME && c.clocks.cardsPushed != Clock.GO_ZERO_TIME && c.clocks.reviewsPushed != Clock.GO_ZERO_TIME
    ensures CardsHaveNotes(l) && CardSync.DistinctIdentities(l)
  {
    StartsWith(l, db);
  }

  /** Notes, cards and the review history; `l` and `db` are the sides before the structures. */
  method SyncContents(col: Collection, server: Handler, m: Manifest, c: Setting, preferServer: bool, authoritative: set<CardKey>,
                      ghost l: Local, ghost db: Db)
    returns (result: Result, ghost noted: Local, ghost notedDb: Db, ghost carded: Local, ghost cardedDb: Db,
             ghost reviewed: Local, ghost reviewedDb: Db, ghost stored: set<int>, ghost counters: seq<StudyPut>, ghost seen: seq<StudyPut>)
    requires Structured(m, c, l, db, preferServer, col.State(), server.State())
    modifies col`notes, col`cards, col`revlog, col`decks, server
    ensures !result.DeletionRefused? && Syncable(col.State(), server.State())
    ensures SoFar(l, db, col.State(), server.State(), preferServer, authoritative)
    ensures result.Synced? ==>
      && NotesSettled(l, db, ScopeOf(c.names), col.State(), server.State())
      && NotesSynced(c, m, old(col.State()), old(server.State()), noted, notedDb)
      && CardsSynced(c, m, preferServer, authoritative, noted, notedDb, carded, cardedDb)
      && ReviewsSynced(c, m, carded, cardedDb, reviewed, reviewedDb, stored, counters, seen, col.State(), server.State())
  {
    hide Structured;
    hide IsCurrent;
    hide Syncable;
    hide RestoreSafe;
    hide NotesSettled;
    hide SoFar;
    hide SameRow;
    hide SameContent;
    hide OnlyStructure;
    hide NotesKept;
    hide BlankCardsKept;
    hide Generates;
    hide CardsHaveNotes;
    hide RecordsListed;
    hide NoteEntries;
    hide NotesSynced;
    hide CardsSynced;
    hide ReviewsSynced;
    hide NoteSync.KeepsIds;
    hide CardSync.DistinctIdentities;
    hide CardSync.CardsListed;
    hide ReviewSync.ReviewsListed;
    hide StudyDays.DaysListed;
    ghost var l1, db1 := col.State(), server.State();
    noted, notedDb, carded, cardedDb, reviewed, reviewedDb, stored, counters, seen := l1, db1, l1, db1, l1, db1, {}, [], [];
    StructuredMeans(m, c, l, db, preferServer, l1, db1);
    AfterStructure(l, db, m, c.names, l1, db1);
    var ok := SyncNotes(col, server, m, c);
    ghost var l2, db2 := col.State(), server.State();
    noted, notedDb := l2, db2;
    NotesDone(l, db, l1, db1, l2, db2, preferServer, authoritative);
    if !ok {
      result := Conflicted("note");
      return;
    }
    CardsStillListed(m, db, c.names, db2);
    ok := SyncCards(col, server, m, c, preferServer, authoritative);
    ghost var l3, db3 := col.State(), server.State();
    carded, cardedDb := l3, db3;
    CardsDone(l, db, l1, db1, l2, db2, l3, db3, preferServer, authoritative);
    if !ok {
      result := Conflicted("card");
      return;
    }
    AfterCards(m, db, c.names, l3, db3);
    ok, reviewed, reviewedDb, stored, counters, seen := SyncReviews(col, server, m, c);
    ReviewsDone(l, db, l3, db3, col.State(), server.State(), preferServer, authoritative);
    SettledStays(l1, db1, ScopeOf(c.names), l2, db2, col.State(), server.State());
    result := if ok then Synced else Conflicted("review history");
  }

  /** Decks, notetypes, notes, cards, review history, media; the first problem ends the pass. */
  method SyncResources(col: Collection, server: Handler, files: Media.Store, media: Media.Store, m: Manifest, c: Setting, transfers: Transfers,
                       compared: set<int>, preferServer: bool, authoritative: set<CardKey>)
    returns (result: Result, ghost tr: Trail)
    requires Syncable(col.State(), server.State()) && IsCurrent(m, server.State(), c.names) && Generates(c.engine.generate)
    requires Clock.GO_ZERO_TIME !in {c.clocks.notesPushed, c.clocks.cardsPushed, c.clocks.reviewsPushed} && files != media
    requires preferServer ==> c.names.None? && RestoreSafe(col.State(), server.State())
    modifies col, server, files, media
    ensures !result.DeletionRefused?
    ensures Syncable(col.State(), server.State())
    ensures result.Synced? ==> NotesSettled(old(col.State()), old(server.State()), ScopeOf(c.names), col.State(), server.State())
    ensures result.Synced? ==> MediaPublished(c.engine.fold, c.engine.references(col.State(), ScopeOf(c.names)), old(media.files), files.files)
    ensures SoFar(old(col.State()), old(server.State()), col.State(), server.State(), preferServer, authoritative)
    ensures result.Synced? ==>
      && tr.manifest == m && tr.compared == compared && tr.restore == preferServer && tr.authoritative == authoritative
      && tr.deleted == old(server.State()) && PhasesDone(c, tr, old(col.State()), col.State(), server.State())
  {
    hide IsCurrent;
    hide Syncable;
    hide RestoreSafe;
    hide NotesSettled;
    hide SoFar;
    hide OnlyStructure;
    hide Generates;
    hide MediaPublished;
    hide Structured;
    hide StructuresDone;
    hide NotesSynced;
    hide CardsSynced;
    hide ReviewsSynced;
    hide PhasesDone;
    ghost var l, db := col.State(), server.State();
    ghost var decked, deckedDb;
    tr := Trail(m, compared, preferServer, authoritative, db, l, db, l, db, l, db, l, db, l, db, {}, [], []);
    result, decked, deckedDb := SyncStructures(col, server, m, c, compared, preferServer);
    ghost var l1, db1 := col.State(), server.State();
    StructureLeavesFit(m, c, l, db, preferServer, l1, db1);
    StructureDone(l, db, l1, db1, preferServer, authoritative);
    if !result.Synced? {
      return;
    }
    ghost var noted, notedDb, carded, cardedDb, reviewed, reviewedDb, stored, counters, seen;
    result, noted, notedDb, carded, cardedDb, reviewed, reviewedDb, stored, counters, seen :=
      SyncContents(col, server, m, c, preferServer, authoritative, l, db);
    if !result.Synced? {
      return;
    }
    tr := Trail(m, compared, preferServer, authoritative, db, decked, deckedDb, l1, db1, noted, notedDb, carded, cardedDb,
                reviewed, reviewedDb, stored, counters, seen);
    PhasesAreDone(c, tr, l, col.State(), server.State());
    var ok := SyncMedia(files, media, c.engine.fold, c.engine.references(col.State(), ScopeOf(c.names)), transfers);
    result := if ok then Synced else Interrupted("media");
  }

  lemma StructureLeavesFit(m: Manifest, c: Setting, l: Local, db: Db, preferServer: bool, l1: Local, db1: Db)
    requires Syncable(l, db) && IsCurrent(m, db, c.names) && OnlyStructure(l, db, l1, db1) && (preferServer ==> db1.records == db.records)
    requires preferServer ==> c.names.None? && RestoreSafe(l, db)
    requires c.clocks.notesPushed != Clock.GO_ZERO_TIME && c.clocks.cardsPushed != Clock.GO_ZERO_TIME && c.clocks.reviewsPushed != Clock.GO_ZERO_TIME
    requires Generates(c.engine.generate)
    ensures Structured(m, c, l, db, preferServer, l1, db1) && Syncable(l1, db1)
  {
    hide RestoreSafe;
    hide Generates;
    AfterStructure(l, db, m, c.names, l1, db1);
  }

  lemma PhasesAreDone(c: Setting, tr: Trail, cleaned: Local, l': Local, db': Db)
    requires StructuresDone(c, tr.manifest, tr.compared, tr.restore, cleaned, tr.deleted, tr.decked, tr.deckedDb, tr.structured, tr.structuredDb)
    requires OnlyStructure(cleaned, tr.deleted, tr.structured, tr.structuredDb)
    requires NotesSynced(c, tr.manifest, tr.structured, tr.structuredDb, tr.noted, tr.notedDb)
    requires CardsSynced(c, tr.manifest, tr.restore, tr.authoritative, tr.noted, tr.notedDb, tr.carded, tr.cardedDb)
    requires ReviewsSynced(c, tr.manifest, tr.carded, tr.cardedDb, tr.reviewed, tr.reviewedDb, tr.stored, tr.counters, tr.seen, l', db')
    ensures PhasesDone(c, tr, cleaned, l', db')
  {
    hide StructuresDone;
    hide OnlyStructure;
    hide NotesSynced;
    hide CardsSynced;
    hide ReviewsSynced;
  }
}
