// A pass that starts with nothing to do changes nothing.

module Idle {
  import opened Prelude
  import opened ServerSpec
  import opened Anki
  import opened Deletes
  import opened Cleaning
  import opened Phases
  import opened ContentPass
  import CardSync
  import Duplicates
  import NoteSync
  import ReviewSync
  import StructureSync
  import StudyDays
  import opened CalmPass
  import opened Rest

  // ---------------------------------------------------------------- a pass from there --

  /** The pass sent no delete and changed nothing on either side; the study-day rows it uploads again are not looked at. */
  ghost predicate Unchanged(d: Did) {
    && !d.restored && d.log.sent == {}
    && d.l'.notes == d.l.notes && d.l'.cards == d.l.cards && d.l'.notetypes == d.l.notetypes
    && (forall r: GuardedRef :: StructureSync.LocalOf(d.l', r) == StructureSync.LocalOf(d.l, r))
    && d.l'.revlog.Keys == d.l.revlog.Keys
    && (forall id :: id in d.l.revlog ==> d.l'.revlog[id].cid == d.l.revlog[id].cid && d.l'.revlog[id].body == d.l.revlog[id].body)
    && (forall deck, r :: StudyDays.Holds(d.l', deck, r) <==> StudyDays.Holds(d.l, deck, r))
    && d.db'.records == d.db.records && d.db'.cards == d.db.cards && d.db'.reviews == d.db.reviews
  }

  /** A pass from a state at rest. */
  ghost predicate Resting(d: Did) {
    Succeeded(d) && d.c.names == None && Startable(d.l, d.db, d.c) && AtRest(d.l, d.db, d.s, d.c)
  }

  lemma CleansNothing(l: Local, q: seq<Ref>, cascade: (Local, Ref) -> Taken, db: Db, s: Snapshot)
    requires Counts(q, db.tombstones.Keys, s, None) && NothingToClean(l, db, s)
    ensures q == [] && Cleaned(l, q, cascade, {}) == l
    ensures forall r :: !AppliedByServer(l, q, cascade, r)
  {
    NoneListed(q);
    hide AfterTombstones;
    hide AppliedByServer;
    NoTombstones(l, cascade);
    WithoutNothing(l);
  }

  lemma NoTombstones(l: Local, cascade: (Local, Ref) -> Taken)
    ensures AfterTombstones(l, [], cascade) == l && forall r :: !AppliedByServer(l, [], cascade, r)
  {
    assert RefSet([]) == {} && NoteRefs({}) == {} && NotetypeRefs({}) == {};
    NothingNamed(l);
    hide AfterNotes;
    hide AfterNotetypes;
    hide NoteRefs;
    hide NotetypeRefs;
    hide RefSet;
  }

  lemma NothingNamed(l: Local)
    ensures AfterNotes(l, {}) == l && AfterNotetypes(l, {}) == l && forall c :: c in l.cards ==> !ChildOf(l, {}, c)
  {
    assert NotesAfter(l, {}) == l.notes;
  }

  lemma WithoutNothing(l: Local)
    ensures Duplicates.Without(l, {}) == l
  {
    assert forall n :: !Duplicates.Orphaned(l, {}, n);
  }

  lemma StructuresStay(l: Local, db: Db, local: map<GuardedRef, StructureSync.LocalStructure>, listed: set<GuardedRef>, e: StructureSync.Env,
                       l': Local, db': Db)
    requires StructureSettled(l, db, local, listed, e, l', db')
    requires forall r: GuardedRef :: r in local || r in listed ==>
      && StructureSync.ViewOf(local, db.records, listed, r) == StructureSync.PairOf(l, db.records, r)
      && StructureSync.PlanFor(StructureSync.PairOf(l, db.records, r), e, StructureSync.Scaffold(l, r)) == StructureSync.Skip
    ensures l' == l && db'.records == db.records
  {
    hide StructureSync.ViewOf;
    hide StructureSync.PlanFor;
    hide StructureSync.Scaffold;
    forall r: GuardedRef
      ensures StructureSync.SameRowAt(l, l', r) && SameRow(db.records, db'.records, r)
    {
      SettledMoves(l, db, local, listed, e, l', db', r);
      SkippedStays(StructureSync.PairOf(l, db.records, r), e, StructureSync.Scaffold(l, r));
      assert StructureSync.PairOf(l', db'.records, r) == StructureSync.PairOf(l, db.records, r);
    }
    SameRows(db.records, db'.records);
    SameTables(l, l');
  }

  lemma SkippedStays(p: StructureSync.Pair, e: StructureSync.Env, scaffold: bool)
    ensures StructureSync.PlanFor(p, e, scaffold) == StructureSync.Skip ==> StructureSync.OutcomeIn(p, p, e, scaffold) == p
  {
  }

  lemma SameTables(l: Local, l': Local)
    requires l' == l.(decks := l'.decks, notetypes := l'.notetypes) && forall r: GuardedRef :: StructureSync.SameRowAt(l, l', r)
    ensures l' == l
  {
    forall d ensures d in l.decks <==> d in l'.decks { assert StructureSync.SameRowAt(l, l', DeckRef(d)); }
    forall d | d in l.decks ensures l'.decks[d] == l.decks[d] { assert StructureSync.SameRowAt(l, l', DeckRef(d)); }
    forall n ensures n in l.notetypes <==> n in l'.notetypes { assert StructureSync.SameRowAt(l, l', NotetypeRef(n)); }
    forall n | n in l.notetypes ensures l'.notetypes[n] == l.notetypes[n] { assert StructureSync.SameRowAt(l, l', NotetypeRef(n)); }
    assert l'.decks == l.decks && l'.notetypes == l.notetypes;
  }

  /** Both structural phases, when every plan is to skip. */
  lemma BothStructuresStay(c: Setting, m: Manifest, ids: set<int>, l: Local, db: Db, mid: Local, midDb: Db, l': Local, db': Db)
    requires StructuresDone(c, m, ids, false, l, db, mid, midDb, l', db') && c.names == None && m == FullManifest(db, c)
    requires PlansRest(l, db, c) && ids == ComparedNotetypes(l, {}, m, db.records)
    ensures l' == l && db'.records == db.records
  {
    hide PlansRest;
    hide FullManifest;
    hide StructureSettled;
    hide StructureSync.PlanFor;
    hide StructureSync.Scaffold;
    hide StructureSync.ViewOf;
    hide ComparedNotetypes;
    var e := StructureEnv(c, m, false);
    PlansOfStructures(l, db, c);
    FullLists(db, c);
    forall r: GuardedRef | r in StructureSync.DeckManifest(l, {}) || r in StructureSync.Decks(m.records).Keys
      ensures StructureSync.ViewOf(StructureSync.DeckManifest(l, {}), db.records, StructureSync.Decks(m.records).Keys, r) == StructureSync.PairOf(l, db.records, r)
      ensures StructureSync.PlanFor(StructureSync.PairOf(l, db.records, r), e, StructureSync.Scaffold(l, r)) == StructureSync.Skip
    {
      WholeDeck(l, db, m, l, {}, r);
    }
    StructuresStay(l, db, StructureSync.DeckManifest(l, {}), StructureSync.Decks(m.records).Keys, e, mid, midDb);
    forall r: GuardedRef | r in StructureSync.NotetypeManifest(mid, ids) || r in StructureSync.Notetypes(m.records, ids).Keys
      ensures StructureSync.ViewOf(StructureSync.NotetypeManifest(mid, ids), midDb.records, StructureSync.Notetypes(m.records, ids).Keys, r)
              == StructureSync.PairOf(mid, midDb.records, r)
      ensures StructureSync.PlanFor(StructureSync.PairOf(mid, midDb.records, r), e, StructureSync.Scaffold(mid, r)) == StructureSync.Skip
    {
      WholeNotetype(l, db, m, mid, midDb, ids, r);
    }
    StructuresStay(mid, midDb, StructureSync.NotetypeManifest(mid, ids), StructureSync.Notetypes(m.records, ids).Keys, e, l', db');
  }

  lemma PlansOfStructures(l: Local, db: Db, c: Setting)
    requires PlansRest(l, db, c)
    ensures var m := FullManifest(db, c); forall r: GuardedRef ::
      r.DeckRef? || (r.NotetypeRef? && r.notetypeId in ComparedNotetypes(l, {}, m, db.records)) ==>
        StructureSync.PlanFor(StructureSync.PairOf(l, db.records, r), StructureEnv(c, m, false), StructureSync.Scaffold(l, r)) == StructureSync.Skip
  {
    assert forall r: GuardedRef :: r.DeckRef? || (r.NotetypeRef? && r.notetypeId in ComparedNotetypes(l, {}, FullManifest(db, c), db.records)) ==>
      InUse(l, db, c, r);
  }

  lemma FullLists(db: Db, c: Setting)
    ensures FullManifest(db, c).records.Keys == db.records.Keys && FullManifest(db, c).cards.Keys == db.cards.Keys
  {
    forall r ensures r in FullManifest(db, c).records <==> r in db.records { }
    forall k ensures k in FullManifest(db, c).cards <==> k in db.cards { }
  }

  /** The note phase, when every plan is to skip. */
  lemma NotesStay(c: Setting, m: Manifest, l: Local, db: Db, l': Local, db': Db)
    requires NotesSynced(c, m, l, db, l', db') && c.names == None && m.records.Keys == db.records.Keys
    requires NoteSync.DistinctGuids(l.notes) && NoteSync.DistinctGuids(l'.notes)
    requires forall g :: g != "" ==> var p := NoteSync.PairOf(l.notes, db.records, g);
      NoteSync.WellTyped(p) && NoteSync.PlanOf(c.engine.nfc, p, NoteEnv(c, m)) == NoteSync.Skip
    ensures l' == l && db'.records == db.records
  {
    hide NoteSync.InConflict;
    hide NoteSync.WellTyped;
    assert ScopeOf(c.names) == {};
    forall g: string | g != ""
      ensures NoteSync.PairOf(l'.notes, db'.records, g) == NoteSync.PairOf(l.notes, db.records, g)
    {
      assert NoteSync.TakenToOutcome(c.engine.nfc, c.engine.rewrite, NoteEnv(c, m), l, {}, db.records, NoteEntries(m.records).Keys, g, l'.notes, db'.records);
      var p := NoteSync.PairOf(l.notes, db.records, g);
      assert NoteSync.WellTyped(p) && NoteSync.PlanOf(c.engine.nfc, p, NoteEnv(c, m)) == NoteSync.Skip;
      SkippedNoteStays(c, m, l, db, l', db', g);
    }
    hide NoteSync.TakenToOutcome;
    forall r: GuardedRef
      ensures SameRow(db.records, db'.records, r)
    {
      if r.NoteRef? && r.guid != "" {
        assert r == NoteRef(r.guid) && NoteSync.PairOf(l'.notes, db'.records, r.guid).server == NoteSync.PairOf(l.notes, db.records, r.guid).server;
      }
    }
    SameRows(db.records, db'.records);
    forall g | g != ""
      ensures NoteSync.NoteNamed(l'.notes, g) == NoteSync.NoteNamed(l.notes, g)
    {
      assert NoteSync.PairOf(l'.notes, db'.records, g).local == NoteSync.PairOf(l.notes, db.records, g).local;
    }
    SameNotes(l.notes, l'.notes);
  }

  lemma SkippedNoteStays(c: Setting, m: Manifest, l: Local, db: Db, l': Local, db': Db, g: string)
    requires g != "" && m.records.Keys == db.records.Keys
    requires NoteSync.TakenToOutcome(c.engine.nfc, c.engine.rewrite, NoteEnv(c, m), l, {}, db.records, NoteEntries(m.records).Keys, g, l'.notes, db'.records)
    requires var p := NoteSync.PairOf(l.notes, db.records, g);
      NoteSync.WellTyped(p) && NoteSync.PlanOf(c.engine.nfc, p, NoteEnv(c, m)) == NoteSync.Skip
    ensures NoteSync.PairOf(l'.notes, db'.records, g) == NoteSync.PairOf(l.notes, db.records, g)
  {
    NoteSync.WholeView(l, db.records, NoteEntries(m.records).Keys, g);
  }

  lemma SameNotes(was: map<int, NoteRow>, now: map<int, NoteRow>)
    requires NoteSync.KeepsIds(was, now) && NoteSync.DistinctGuids(was) && NoteSync.DistinctGuids(now)
    requires forall g :: g != "" ==> NoteSync.NoteNamed(now, g) == NoteSync.NoteNamed(was, g)
    ensures now == was
  {
    forall n | n in was
      ensures n in now && now[n] == was[n]
    {
      if was[n].guid != "" {
        NoteSync.NamedNote(was, n, was[n].guid);
        NoteSync.NamedNote(now, n, was[n].guid);
      }
    }
    forall n | n in now
      ensures n in was
    {
      if now[n].guid != "" {
        NoteSync.NamedNote(now, n, now[n].guid);
        var o :| NoteSync.HasGuid(was, o, now[n].guid);
        assert now[o].guid == now[n].guid;
      }
    }
  }

  /** The card phase, when every plan is to skip. */
  lemma CardsStay(c: Setting, m: Manifest, authoritative: set<CardKey>, l: Local, db: Db, l': Local, db': Db)
    requires CardsSynced(c, m, false, authoritative, l, db, l', db') && c.names == None && m.cards.Keys == db.cards.Keys
    requires c.engine.generate(l) == map[] && CardSync.DistinctIdentities(l) && authoritative == {}
    requires (forall k :: k in db.cards ==> k.guid != "") && (forall k :: k in db'.cards ==> k.guid != "")
    requires forall k: CardKey :: k.guid != "" ==> var p := CardSync.PairOf(l, db.cards, k);
      CardSync.PlanOf(c.engine.fold, p.local, CardSync.EntryOfPair(p), CardEnv(c, m, false), false) == CardSync.Skip
    ensures l' == l && db'.cards == db.cards
  {
    CardsTaken(c, m, l, db, l', db');
    hide CardsSynced;
    hide WithGenerated;
    hide BlankCardsKept;
    hide CardSync.PlanOf;
    hide CardSync.TakenToOutcome;
    hide CardSync.DistinctIdentities;
    hide CardSync.CardNamed;
    hide Identity;
    forall k: CardKey | k.guid != ""
      ensures CardSync.PairOf(l', db'.cards, k) == CardSync.PairOf(l, db.cards, k)
    {
      SkippedCardStays(c, m, l, db, l', db', k);
    }
    SameCards(l, db, l', db');
  }

  lemma CardsTaken(c: Setting, m: Manifest, l: Local, db: Db, l': Local, db': Db)
    requires CardsSynced(c, m, false, {}, l, db, l', db') && c.names == None && c.engine.generate(l) == map[]
    ensures l' == l.(cards := l'.cards) && l'.cards.Keys == l.cards.Keys && BlankCardsKept(l, l') && forall x :: Identity(l', x) == Identity(l, x)
    ensures forall k: CardKey :: k.guid != "" ==>
      CardSync.TakenToOutcome(c.engine.fold, CardEnv(c, m, false), {}, l, {}, db.cards, m.cards.Keys, k, l', db'.cards)
  {
    assert WithGenerated(c, l) == l && ScopeOf(c.names) == {};
    hide WithGenerated;
    hide BlankCardsKept;
    hide CardSync.TakenToOutcome;
    hide CardSync.PlanAt;
    hide Identity;
  }

  lemma SameCards(l: Local, db: Db, l': Local, db': Db)
    requires forall k: CardKey :: k.guid != "" ==> CardSync.PairOf(l', db'.cards, k) == CardSync.PairOf(l, db.cards, k)
    requires l' == l.(cards := l'.cards) && l'.cards.Keys == l.cards.Keys && BlankCardsKept(l, l') && CardSync.DistinctIdentities(l)
    requires forall x :: Identity(l', x) == Identity(l, x)
    requires (forall k :: k in db.cards ==> k.guid != "") && (forall k :: k in db'.cards ==> k.guid != "")
    ensures l' == l && db'.cards == db.cards
  {
    hide CardSync.CardNamed;
    hide Identity;
    forall k: CardKey
      ensures SameRow(db.cards, db'.cards, k)
    {
      if k.guid != "" {
        assert CardSync.PairOf(l', db'.cards, k).server == CardSync.PairOf(l, db.cards, k).server;
      }
    }
    SameRows(db.cards, db'.cards);
    assert CardSync.DistinctIdentities(l');
    forall x | x in l.cards
      ensures l'.cards[x] == l.cards[x]
    {
      var k := Identity(l, x);
      if k.guid != "" {
        NamedAs(l, x, k);
        NamedAs(l', x, k);
        assert CardSync.PairOf(l', db'.cards, k).local == CardSync.PairOf(l, db.cards, k).local;
      }
    }
  }

  lemma SkippedCardStays(c: Setting, m: Manifest, l: Local, db: Db, l': Local, db': Db, k: CardKey)
    requires k.guid != "" && m.cards.Keys == db.cards.Keys && forall k :: k in db.cards ==> k.guid != ""
    requires CardSync.TakenToOutcome(c.engine.fold, CardEnv(c, m, false), {}, l, {}, db.cards, m.cards.Keys, k, l', db'.cards)
    requires forall k: CardKey :: k.guid != "" ==> var p := CardSync.PairOf(l, db.cards, k);
      CardSync.PlanOf(c.engine.fold, p.local, CardSync.EntryOfPair(p), CardEnv(c, m, false), false) == CardSync.Skip
    ensures CardSync.PairOf(l', db'.cards, k) == CardSync.PairOf(l, db.cards, k)
  {
    hide CardSync.PlanOf;
    CardSync.WholeView(l, db.cards, k);
    forall p: CardKey | k in db.cards && CardSync.SharesId(db.cards, p, k)
      ensures CardSync.PlanAt(c.engine.fold, l, {}, db.cards, db.cards.Keys, CardEnv(c, m, false), {}, p) != CardSync.Pull
    {
      CardSync.WholeView(l, db.cards, p);
    }
  }

  lemma ReviewsStay(l: Local, db: Db, l': Local, db': Db, stored: set<int>)
    requires ReviewSync.HistoryPassIn(l, db, None, db.reviews.Keys, l', db', stored) && l.revlog.Keys == db.reviews.Keys
    requires forall id :: !ReviewSync.VisibleConflict(l, db, ReviewSync.ShownReviews(l, None), db.reviews.Keys, id)
    ensures db'.reviews == db.reviews && l'.revlog.Keys == l.revlog.Keys
    ensures forall id :: id in l.revlog ==> l'.revlog[id].cid == l.revlog[id].cid && l'.revlog[id].body == l.revlog[id].body
  {
    ReviewSync.SeeingAllIsPlain(l, db, l', db', stored);
    assert forall id :: !ReviewSync.Conflicting(l, db, id);
    assert ReviewSync.Downloaded(l, db, l') && ReviewSync.Uploaded(l, db, db');
    assert l'.revlog.Keys == l.revlog.Keys && db'.reviews.Keys == db.reviews.Keys;
    forall id ensures SameRow(db.reviews, db'.reviews, id) { }
    SameRows(db.reviews, db'.reviews);
    hide ReviewSync.HistoryPassIn;
  }

  /** Where nothing listed exceeds the collection's counters, the merge leaves them alone. */
  lemma CountersStay(l: Local, db: Db, seen: seq<StudyPut>, l': Local, deck: string, r: StudyPut)
    requires StudyDays.CountersPass(l, seen, None, l') && StudyDays.Advertises(seen, db, None) && CountersCovered(l, db)
    ensures StudyDays.Holds(l', deck, r) <==> StudyDays.Holds(l, deck, r)
  {
    if deck != "" && deck in l.decks && StudyDays.Snapshots(seen, l, None, deck) != {} {
      var listed := StudyDays.OfDeck(seen, deck);
      if x :| x in listed {
        assert x.key in db.studyDays && db.studyDays[x.key].value == x.counters;
      }
      var mine := StudyDays.LocalRecord(deck, l.decks[deck], l.crt).value;
      forall x | x in StudyDays.Snapshots(seen, l, None, deck)
        ensures StudyDays.Precedes(x, mine)
      {
        if x in listed {
          var held :| StudyDays.Holds(l, deck, held) && StudyDays.Precedes(x, held);
        }
      }
      StudyDays.GreatestIsSupremum(mine, StudyDays.Snapshots(seen, l, None, deck));
      var held := StudyDays.PassTakesSupremum(l, seen, None, l', deck);
      StudyDays.SupremumIsUnique(mine, held, StudyDays.Snapshots(seen, l, None, deck));
    }
  }

  lemma RestingMeans(d: Did)
    requires Resting(d)
    ensures CleanedFor(d.l, d.c, d.log) == d.l && d.log.sent == {} && !d.restored && Syncable(d.l, d.db) && Syncable(d.l', d.db')
    ensures d.tr.manifest == FullManifest(d.db, d.c) && d.tr.deleted == d.db && !d.tr.restore && d.tr.authoritative == {}
    ensures PhasesDone(d.c, d.tr, d.l, d.l', d.db') && PlansRest(d.l, d.db, d.c) && d.c.engine.generate(d.l) == map[] && d.c.names == None
    ensures d.tr.compared == ComparedNotetypes(d.l, {}, d.tr.manifest, d.db.records)
    ensures d.l.revlog.Keys == d.db.reviews.Keys && CountersCovered(d.l, d.db)
  {
    hide *;
    RestingParts(d);
    CleansNothing(d.l, d.log.order, d.c.engine.cascade, d.db, d.s);
    RestingSends(d);
    WholePass(d);
    SkippedIsComplete(d.l, d.db, d.c);
    NothingAuthoritative(d.l, d.db, d.c, d.tr.authoritative);
    RestingIsSyncable(d);
  }

  lemma RestingParts(d: Did)
    requires Resting(d)
    ensures Succeeded(d) && d.c.names == None && Startable(d.l, d.db, d.c)
    ensures Counts(d.log.order, d.db.tombstones.Keys, d.s, None) && CleanedFor(d.l, d.c, d.log) == Cleaned(d.l, d.log.order, d.c.engine.cascade, {})
    ensures NothingToClean(d.l, d.db, d.s) && PlansRest(d.l, d.db, d.c) && d.c.engine.generate(d.l) == map[]
    ensures d.l.revlog.Keys == d.db.reviews.Keys && CountersCovered(d.l, d.db)
    ensures forall k :: k in d.db.cards ==> k.guid != ""
  {
    hide LegalPass;
    hide Counts;
    hide Cleaned;
    hide Ready;
    hide Fresh;
    hide Syncable;
    hide NotesDecided;
    hide SnapshotRecords;
    hide Decided;
    hide FollowsPlan;
    hide PhasesDone;
    hide ForeignCardsKept;
    hide PlansRest;
    hide NothingToClean;
    hide CountersCovered;
    hide Generates;
    hide Tidy;
    hide ViewKeys;
    hide LocalKeys;
    hide FinalKeys;
    hide DeletesToSend;
    hide AppliedByServer;
    assert Ready(d.l, d.db, None) && Logs(d.l, d.db, d.s, d.c.engine.cascade, d.log);
    ReadyMeans(d.l, d.db, None);
  }

  /** Nothing the snapshot knew is gone, so nothing is sent; and the snapshot was no fresh one. */
  lemma RestingSends(d: Did)
    requires Resting(d) && CleanedFor(d.l, d.c, d.log) == d.l && (forall r :: !AppliedByServer(d.l, d.log.order, d.c.engine.cascade, r))
    ensures d.log.sent == {} && !d.restored
  {
    assert Cleaned(d.l, d.log.order, d.c.engine.cascade, {}) == d.l;
    assert LegalPass(d.s, d.log, d.s') && Logs(d.l, d.db, d.s, d.c.engine.cascade, d.log);
    assert d.log.applied == {};
    hide Succeeded;
    hide Startable;
    hide Cleaned;
    hide NeedsApproval;
    hide DeletesToSend;
    hide LocalKeys;
    hide ViewKeys;
    hide Fresh;
    hide PlansRest;
    hide AppliedByServer;
  }

  lemma NothingAuthoritative(l: Local, db: Db, c: Setting, authoritative: set<CardKey>)
    requires Complete(l, db) && forall k :: k in authoritative <==> k in FullManifest(db, c).cards && CardSync.CardNamed(l, k).None?
    ensures authoritative == {}
  {
    FullLists(db, c);
    hide FullManifest;
    forall k
      ensures k !in authoritative
    {
      if k in FullManifest(db, c).cards { assert k in db.cards; }
    }
  }

  lemma RestingIsSyncable(d: Did)
    requires Resting(d) && CleanedFor(d.l, d.c, d.log) == d.l
    ensures Syncable(d.l, d.db)
  {
    assert Startable(d.l, d.db, d.c);
    assert Cleaned(d.l, d.log.order, d.c.engine.cascade, {}) == d.l && ScopeOf(None) == {};
    hide Resting;
    NothingDeleted(d.db);
    StartableMeans(d.l, d.db, d.c);
    ReadyMeans(d.l, d.db, None);
    CleanedIsDistinct(d.l, d.log.order, d.c.engine.cascade, None);
    hide Cleaned;
    CleanedIsSyncable(d.l, d.log.order, d.c.engine.cascade, None, d.db, {}, d.db);
  }

  /** Every phase in turn, when every plan is to skip. */
  lemma PhasesStay(c: Setting, tr: Trail, l: Local, db: Db, l': Local, db': Db)
    requires PhasesDone(c, tr, l, l', db') && c.names == None && tr.deleted == db && !tr.restore && tr.authoritative == {}
    requires tr.manifest == FullManifest(db, c) && tr.compared == ComparedNotetypes(l, {}, tr.manifest, db.records)
    requires PlansRest(l, db, c) && c.engine.generate(l) == map[] && l.revlog.Keys == db.reviews.Keys
    requires Syncable(l, db) && Syncable(l', db')
    ensures tr.reviewed == l.(revlog := tr.reviewed.revlog) && tr.cardedDb.studyDays == db.studyDays
    ensures db'.records == db.records && db'.cards == db.cards && db'.reviews == db.reviews && tr.reviewed.revlog.Keys == l.revlog.Keys
    ensures forall id :: id in l.revlog ==> tr.reviewed.revlog[id].cid == l.revlog[id].cid && tr.reviewed.revlog[id].body == l.revlog[id].body
  {
    hide *;
    PhasesOf(c, tr, l, l', db');
    Frames(c, tr, l, l', db');
    Fields(c, tr, l, l', db');
    SyncableParts(l, db);
    SyncableParts(l', db');
    FullLists(db, c);
    ListedReviews(db, c);
    BothStructuresStay(c, tr.manifest, tr.compared, l, db, tr.decked, tr.deckedDb, tr.structured, tr.structuredDb);
    PlansOfContent(l, db, tr.structuredDb, c);
    NotesStay(c, tr.manifest, l, tr.structuredDb, tr.noted, tr.notedDb);
    PlansOfContent(l, db, tr.notedDb, c);
    CardsStay(c, tr.manifest, {}, l, tr.notedDb, tr.carded, tr.cardedDb);
    HistoryOf(c, tr.manifest, tr.carded, tr.cardedDb, tr.reviewed, tr.reviewedDb, tr.stored, tr.counters, tr.seen, l', db');
    ReviewsStay(l, tr.cardedDb, tr.reviewed, tr.reviewedDb, tr.stored);
  }

  lemma SyncableParts(l: Local, db: Db)
    requires Syncable(l, db)
    ensures NoteSync.DistinctGuids(l.notes) && CardSync.DistinctIdentities(l) && forall k :: k in db.cards ==> k.guid != ""
  {
  }

  lemma PlansOfContent(l: Local, db: Db, db1: Db, c: Setting)
    requires PlansRest(l, db, c) && db1.records == db.records && db1.cards == db.cards
    ensures var m := FullManifest(db, c);
      && (forall g :: g != "" ==> var p := NoteSync.PairOf(l.notes, db1.records, g);
          NoteSync.WellTyped(p) && NoteSync.PlanOf(c.engine.nfc, p, NoteEnv(c, m)) == NoteSync.Skip)
      && (forall k: CardKey :: k.guid != "" ==> var p := CardSync.PairOf(l, db1.cards, k);
          CardSync.PlanOf(c.engine.fold, p.local, CardSync.EntryOfPair(p), CardEnv(c, m, false), false) == CardSync.Skip)
  {
  }

  /**
   * From a state at rest a pass that runs to the end sends no delete, is no restore,
   * and changes no note, card, deck, notetype or review on either side, and no
   * counter of the collection.
   */
  lemma RestingPassIsIdle(d: Did)
    requires Resting(d)
    ensures Unchanged(d)
  {
    hide *;
    RestingMeans(d);
    Frames(d.c, d.tr, d.l, d.l', d.db');
    PhasesStay(d.c, d.tr, d.l, d.db, d.l', d.db');
    PhasesOf(d.c, d.tr, d.l, d.l', d.db');
    HistoryOf(d.c, d.tr.manifest, d.tr.carded, d.tr.cardedDb, d.tr.reviewed, d.tr.reviewedDb, d.tr.stored, d.tr.counters, d.tr.seen, d.l', d.db');
    CoveredStays(d.l, d.db, d.tr.reviewed, d.tr.cardedDb);
    forall deck, r
      ensures StudyDays.Holds(d.l', deck, r) <==> StudyDays.Holds(d.l, deck, r)
    {
      CountersStay(d.tr.reviewed, d.tr.cardedDb, d.tr.seen, d.l', deck, r);
      SameHolds(d.l, d.tr.reviewed, deck, r);
    }
    forall r: GuardedRef
      ensures StructureSync.LocalOf(d.l', r) == StructureSync.LocalOf(d.l, r)
    {
      CountersKeepDefinitions(d.tr.reviewed, d.tr.seen, None, d.l', r);
      SameDefinition(d.tr.reviewed, d.l, r);
    }
    UnchangedParts(d);
  }

  lemma CoveredStays(l: Local, db: Db, l': Local, db': Db)
    requires CountersCovered(l, db) && l'.decks == l.decks && l'.crt == l.crt && db'.studyDays == db.studyDays
    ensures CountersCovered(l', db')
  {
    forall r: StudyPut | r.key in db'.studyDays && db'.studyDays[r.key].value == r.counters && r.key.deck in l'.decks && r.key.deck != ""
      ensures exists held :: StudyDays.Holds(l', r.key.deck, held) && StudyDays.Precedes(r, held)
    {
      var held :| StudyDays.Holds(l, r.key.deck, held) && StudyDays.Precedes(r, held);
      assert StudyDays.Holds(l', r.key.deck, held);
    }
  }

  lemma SameHolds(l: Local, l': Local, deck: string, r: StudyPut)
    requires l'.decks == l.decks && l'.crt == l.crt
    ensures StudyDays.Holds(l', deck, r) <==> StudyDays.Holds(l, deck, r)
  {
  }

  lemma UnchangedParts(d: Did)
    requires !d.restored && d.log.sent == {} && d.l'.notes == d.l.notes && d.l'.cards == d.l.cards && d.l'.notetypes == d.l.notetypes
    requires forall r: GuardedRef :: StructureSync.LocalOf(d.l', r) == StructureSync.LocalOf(d.l, r)
    requires d.l'.revlog.Keys == d.l.revlog.Keys
    requires forall id :: id in d.l.revlog ==> d.l'.revlog[id].cid == d.l.revlog[id].cid && d.l'.revlog[id].body == d.l.revlog[id].body
    requires forall deck, r :: StudyDays.Holds(d.l', deck, r) <==> StudyDays.Holds(d.l, deck, r)
    requires d.db'.records == d.db.records && d.db'.cards == d.db.cards && d.db'.reviews == d.db.reviews
    ensures Unchanged(d)
  {
  }

  /** Two calm passes, and a third that finds them complete changes nothing. */
  lemma ThirdPassIsIdle(d1: Did, d2: Did, d3: Did)
    requires TwoCalm(d1, d2, d3.c) && d3.l == d2.l' && d3.db == d2.db' && d3.s == d2.s'
    requires Succeeded(d3) && Startable(d3.l, d3.db, d3.c)
    requires Complete(d3.l, d3.db) && NothingToClean(d3.l, d3.db, d3.s) && !Fresh(d3.l, d3.db, d3.s, None) && d3.c.engine.generate(d3.l) == map[]
    ensures Unchanged(d3)
  {
    hide *;
    TwoCalmPassesRestIff(d1, d2, d3.c);
    TwoCalmMeans(d1, d2, d3.c);
    Rested(d3);
    RestingPassIsIdle(d3);
  }

  lemma Rested(d: Did)
    requires Succeeded(d) && d.c.names == None && Startable(d.l, d.db, d.c) && AtRest(d.l, d.db, d.s, d.c)
    ensures Resting(d)
  {
  }
}
