// The first half of a content pass under any routes (content_sync.py,
// sync_content_once up to the approval of deletes): the routed manifest,
// tombstones, duplicate repair, the restore decision and the deletes to send.

module Cleaning {
  import opened Prelude
  import opened ServerSpec
  import opened ServerRuns
  import opened Anki
  import opened Server
  import opened Deletes
  import opened Routing
  import CardSync
  import Duplicates
  import NoteSync
  import ReviewSync
  import StudyDays

  // --------------------------------------------------------------- pushing deletes --

  /** Some resources are gone and tombstoned; nothing else changed. */
  ghost predicate DeletedAll(db: Db, rs: set<Ref>, db': Db) {
    && (forall r: GuardedRef :: r in db'.records <==> r in db.records && r !in rs)
    && (forall r: GuardedRef :: r in db'.records ==> db'.records[r] == db.records[r])
    && (forall k :: k in db'.cards <==> k in db.cards && CardRef(db.cards[k].cardId) !in rs)
    && (forall k :: k in db'.cards ==> db'.cards[k] == db.cards[k])
    && (forall r :: r in db'.tombstones <==> r in db.tombstones || r in rs)
    && db'.reviews == db.reviews && db'.studyDays == db.studyDays
  }

  lemma DeleteOne(db: Db, r: Ref, now: int)
    ensures DeletedAll(db, {r}, Apply(db, Event(now, DeleteAtom(r))))
  {
  }

  lemma DeletedTwice(db: Db, a: set<Ref>, mid: Db, b: set<Ref>, after: Db)
    requires DeletedAll(db, a, mid) && DeletedAll(mid, b, after)
    ensures DeletedAll(db, a + b, after)
  {
  }

  lemma {:induction false} DeleteRun(db: Db, rs: seq<Ref>, now: int)
    ensures DeletedAll(db, RefSet(rs), Run(db, DeleteEvents(rs, now)))
  {
    hide Apply;
    if |rs| > 0 {
      var n := |rs| - 1;
      assert DeleteEvents(rs, now)[..n] == DeleteEvents(rs[..n], now);
      assert rs == rs[..n] + [rs[n]];
      assert RefSet(rs) == RefSet(rs[..n]) + {rs[n]};
      DeleteRun(db, rs[..n], now);
      DeleteOne(Run(db, DeleteEvents(rs[..n], now)), rs[n], now);
      DeletedTwice(db, RefSet(rs[..n]), Run(db, DeleteEvents(rs[..n], now)), {rs[n]}, Run(db, DeleteEvents(rs, now)));
    }
  }

  const DELETE_BATCH := 3000

  ghost predicate DistinctSeq(rs: seq<Ref>) {
    forall i, j :: 0 <= i < j < |rs| ==> rs[i] != rs[j]
  }

  lemma NothingListed(list: seq<Ref>, db: Db)
    ensures DeletedAll(db, RefSet(list[..0]), db)
  {
  }

  /** A chunk of a list without repetitions is an acceptable request. */
  lemma ChunkOf(list: seq<Ref>, start: nat, end: nat)
    requires DistinctSeq(list) && start < end <= |list| && end - start <= DELETE_BATCH
    ensures |list[start..end]| <= MAX_BATCH_DELETES
    ensures forall i, j :: 0 <= i < j < |list[start..end]| ==> list[start..end][i] != list[start..end][j]
    ensures RefSet(list[..end]) == RefSet(list[..start]) + RefSet(list[start..end])
  {
    assert list[..end] == list[..start] + list[start..end];
  }

  lemma ListedOnce(list: seq<Ref>, rs: set<Ref>)
    requires (forall r :: r in list <==> r in rs) && forall i, j :: 0 <= i < j < |list| ==> list[i] != list[j]
    ensures DistinctSeq(list) && RefSet(list) == rs
  {
    forall r ensures r in RefSet(list) <==> r in rs { }
  }

  /** One kind of resource, in transactional batches; none is ever refused. */
  method PushKind(server: Handler, rs: set<Ref>, now: int)
    modifies server
    ensures DeletedAll(old(server.State()), rs, server.State())
  {
    hide DeletedAll;
    hide RefSet;
    hide DistinctSeq;
    hide Run;
    var list := ListOf(rs);
    ListedOnce(list, rs);
    ghost var db := server.State();
    var start: nat := 0;
    NothingListed(list, db);
    while start < |list|
      invariant start <= |list| && DeletedAll(db, RefSet(list[..start]), server.State())
    {
      var end: nat := if start + DELETE_BATCH < |list| then start + DELETE_BATCH else |list|;
      ghost var before := server.State();
      ChunkOf(list, start, end);
      var resp := server.BatchDelete(list[start..end], now);
      DeleteRun(before, list[start..end], now);
      DeletedTwice(db, RefSet(list[..start]), before, RefSet(list[start..end]), server.State());
      start := end;
    }
    assert list[..start] == list;
  }

  /** _push_local_deletes: notes, cards, notetypes, decks. */
  method PushLocalDeletes(server: Handler, rs: set<Ref>, now: int)
    modifies server
    ensures DeletedAll(old(server.State()), rs, server.State())
  {
    ghost var db := server.State();
    hide DeletedAll;
    PushKind(server, NoteRefs(rs), now);
    ghost var db1 := server.State();
    PushKind(server, CardRefs(rs), now);
    ghost var db2 := server.State();
    DeletedTwice(db, NoteRefs(rs), db1, CardRefs(rs), db2);
    PushKind(server, NotetypeRefs(rs), now);
    ghost var db3 := server.State();
    DeletedTwice(db, NoteRefs(rs) + CardRefs(rs), db2, NotetypeRefs(rs), db3);
    PushKind(server, DeckRefs(rs), now);
    DeletedTwice(db, NoteRefs(rs) + CardRefs(rs) + NotetypeRefs(rs), db3, DeckRefs(rs), server.State());
    assert rs == NoteRefs(rs) + CardRefs(rs) + NotetypeRefs(rs) + DeckRefs(rs);
  }

  // ---------------------------------------------------------- fresh or interrupted restore --

  /** Every local note matches the server, and every local card is known there and untouched. */
  ghost predicate RestoreSafe(l: Local, db: Db) {
    && (forall g :: g != "" && NoteSync.NoteNamed(l.notes, g).Some? ==>
          NoteRef(g) in db.records && DigestOf(db.records[NoteRef(g)].content) == NoteSync.LocalEntryOf(NoteSync.NoteNamed(l.notes, g).value).digest)
    && (forall k: CardKey :: k.guid != "" && CardSync.CardNamed(l, k).Some? ==>
          k in db.cards && CardSync.Pristine(CardSync.CardNamed(l, k).value.row.scheduling))
  }

  /** _safe_fresh_or_interrupted_restore; empty local content is the vacuous case. */
  method SafeFreshOrInterruptedRestore(localNotes: map<string, NoteSync.LocalEntry>, localCards: map<CardKey, CardSync.LocalCard>, m: Manifest)
    returns (safe: bool)
    ensures safe <==>
      && (forall g :: g in localNotes ==> NoteRef(g) in m.records && m.records[NoteRef(g)].digest == localNotes[g].digest)
      && (forall k :: k in localCards ==> k in m.cards && CardSync.Pristine(localCards[k].row.scheduling))
  {
    var notes := localNotes.Keys;
    while notes != {}
      invariant notes <= localNotes.Keys
      invariant forall g :: g in localNotes && g !in notes ==>
        NoteRef(g) in m.records && m.records[NoteRef(g)].digest == localNotes[g].digest
      decreases notes
    {
      var g := Pick(notes);
      notes := notes - {g};
      if NoteRef(g) !in m.records || m.records[NoteRef(g)].digest != localNotes[g].digest {
        return false;
      }
    }
    var cards := localCards.Keys;
    while cards != {}
      invariant cards <= localCards.Keys
      invariant forall k :: k in localCards && k !in cards ==> k in m.cards && CardSync.Pristine(localCards[k].row.scheduling)
      decreases cards
    {
      var k := Pick(cards);
      cards := cards - {k};
      if k !in m.cards || !CardSync.Pristine(localCards[k].row.scheduling) {
        return false;
      }
    }
    safe := true;
  }

  /** The predicate, read off the manifests. */
  method IsSafeRestore(l: Local, m: Manifest, ghost db: Db) returns (safe: bool)
    requires NoteSync.DistinctGuids(l.notes) && CardSync.DistinctIdentities(l) && IsCurrent(m, db, None)
    ensures safe <==> RestoreSafe(l, db)
  {
    var localNotes := NoteSync.NoteManifest(l.notes);
    var localCards := CardSync.CardManifest(l);
    safe := SafeFreshOrInterruptedRestore(localNotes, localCards, m);
    assert forall g :: NoteRef(g) in m.records <==> NoteRef(g) in db.records;
    assert forall k :: k in m.cards <==> k in db.cards;
  }

  /** A restore is fresh only without routes, before any snapshot, and when the server has content. */
  ghost predicate Fresh(l: Local, db: Db, s: Snapshot, names: Option<set<string>>) {
    && names.None? && s.known == {} && ((exists g :: NoteRef(g) in db.records) || db.cards.Keys != {})
    && RestoreSafe(l, db)
  }

  method IsFreshRestore(s: Snapshot, names: Option<set<string>>, l: Local, m: Manifest, ghost db: Db) returns (takeServer: bool)
    requires NoteSync.DistinctGuids(l.notes) && CardSync.DistinctIdentities(l) && IsCurrent(m, db, names)
    ensures takeServer <==> Fresh(l, db, s, names)
  {
    takeServer := false;
    if names.None? && s.known == {} && (m.cards.Keys != {} || (set r | r in m.records && r.NoteRef?) != {}) {
      takeServer := IsSafeRestore(l, m, db);
    }
    if names.None? {
      NotesListed(m, db);
    }
  }

  lemma NotesListed(m: Manifest, db: Db)
    requires m.records.Keys == db.records.Keys
    ensures (set r | r in m.records && r.NoteRef?) != {} <==> exists g :: NoteRef(g) in db.records
  {
    var notes := set r | r in m.records && r.NoteRef?;
    if r :| r in notes {
      assert NoteRef(r.guid) in db.records;
    }
    if g :| NoteRef(g) in db.records {
      assert NoteRef(g) in notes;
    }
  }

  // ------------------------------------------------------------ snapshot and manifest --

  /** The mutable state file. */
  class StateFile {
    var snapshot: Snapshot

    constructor ()
      ensures snapshot == EMPTY_SNAPSHOT
    {
      snapshot := EMPTY_SNAPSHOT;
    }
  }

  /** Everything a manifest names. */
  function ManifestKeys(m: Manifest): set<Ref> {
    (set r: Ref | r in m.records) + (set k | k in m.cards :: CardRef(m.cards[k].cardId))
  }

  /** Everything the server manifest names under some routes. */
  function ViewKeys(db: Db, names: Option<set<string>>): set<Ref> {
    ManifestKeys(Routed(ManifestOf(db, None, 0), names))
  }

  lemma ViewIgnoresClock(db: Db, names: Option<set<string>>, now: int)
    ensures ManifestKeys(Routed(ManifestOf(db, None, now), names)) == ViewKeys(db, names)
    ensures Routed(ManifestOf(db, None, now), names).cards == Routed(ManifestOf(db, None, 0), names).cards
    ensures Routed(ManifestOf(db, None, now), names).tombstones.Keys == db.tombstones.Keys
  {
    var m, m0 := ManifestOf(db, None, now), ManifestOf(db, None, 0);
    assert m.cards == m0.cards && m.records == m0.records;
    assert m.tombstones.Keys == db.tombstones.Keys by { assert forall r :: r in m.tombstones <==> r in db.tombstones; }
    if names.Some? {
      forall k ensures CardRouted(m, names.value, k) <==> CardRouted(m0, names.value, k) { }
      forall g ensures NoteRouted(m, names.value, g) <==> NoteRouted(m0, names.value, g) { }
    }
    assert Routed(m, names).cards == Routed(m0, names).cards;
    assert Routed(m, names).records == Routed(m0, names).records;
  }

  /** What the manifest of a pass says of the server while nobody else writes. */
  ghost predicate IsCurrent(m: Manifest, db: Db, names: Option<set<string>>) {
    && RecordsListed(m.records, db.records) && CardSync.CardsListed(m.cards, db.cards)
    && (forall k :: k in m.cards ==> k.guid != "")
    && ReviewSync.ReviewsListed(m.reviews, db) && StudyDays.DaysListed(m.studyDays, db, names)
    && (names.None? ==> m.records.Keys == db.records.Keys && m.cards.Keys == db.cards.Keys)
  }

  lemma RoutedIsCurrent(db: Db, names: Option<set<string>>, now: int)
    requires (forall k :: k in db.cards ==> k.guid != "") && forall r :: r in db.reviews ==> r > 0
    ensures IsCurrent(Routed(ManifestOf(db, None, now), names), db, names)
  {
    var m := ManifestOf(db, None, now);
    assert IsCurrent(m, db, None) by { FullIsCurrent(db, now); }
    hide ManifestOf;
    hide CardRouted;
    hide RefRouted;
    hide InScope;
  }

  lemma FullIsCurrent(db: Db, now: int)
    requires (forall k :: k in db.cards ==> k.guid != "") && forall r :: r in db.reviews ==> r > 0
    ensures IsCurrent(ManifestOf(db, None, now), db, None)
  {
    var m := ManifestOf(db, None, now);
    assert forall r :: r in m.records <==> r in db.records;
    assert forall k :: k in m.cards <==> k in db.cards;
  }

  // ----------------------------------------------------------- before anything is sent --

  /** The local side after tombstones and duplicate repair under some routes. */
  ghost function Cleaned(l: Local, q: seq<Ref>, cascade: (Local, Ref) -> Taken, scope: set<string>): Local {
    var l1 := AfterTombstones(l, q, cascade);
    Duplicates.Without(l1, Duplicates.SupersededCards(l1, scope))
  }

  /** The tombstones that count for a pass, each once, in some order. */
  ghost predicate Counts(q: seq<Ref>, tombstones: set<Ref>, s: Snapshot, names: Option<set<string>>) {
    DistinctSeq(q) && RefSet(q) == TombstonesForSnapshot(tombstones, s, names)
  }

  /** The repair never removes a note that has a guid. */
  lemma RepairKeepsNotes(l: Local, scope: set<string>, g: string)
    requires NoteSync.DistinctGuids(l.notes) && g != ""
    ensures HasNote(Duplicates.Without(l, Duplicates.SupersededCards(l, scope)), g) <==> HasNote(l, g)
  {
    var removed := Duplicates.SupersededCards(l, scope);
    forall n | n in l.notes && l.notes[n].guid == g
      ensures !Duplicates.Orphaned(l, removed, n)
    {
      if c :| c in removed && c in l.cards && l.cards[c].nid == n {
        assert Duplicates.Covered(l, scope, c);
        var top := Duplicates.GroupHasNewest(l, scope, c);
        assert l.cards[top].nid == n && top !in removed;
      }
    }
    var l' := Duplicates.Without(l, removed);
    if n :| n in l.notes && l.notes[n].guid == g { assert n in l'.notes; }
  }

  /** Two cards of one logical identity are both in reach of the duplicate repair. */
  ghost predicate DuplicatesCovered(l: Local, scope: set<string>) {
    forall c1, c2 :: c1 in l.cards && c2 in l.cards && c1 != c2 && Identity(l, c1) == Identity(l, c2) && Identity(l, c1).guid != "" ==>
      Duplicates.Covered(l, scope, c1) && Duplicates.Covered(l, scope, c2)
  }

  lemma RepairKeepsDistinct(l: Local, scope: set<string>)
    requires NoteSync.DistinctGuids(l.notes) && DuplicatesCovered(l, scope)
    ensures var l' := Duplicates.Without(l, Duplicates.SupersededCards(l, scope));
      NoteSync.DistinctGuids(l'.notes) && CardSync.DistinctIdentities(l')
  {
    var l' := Duplicates.Without(l, Duplicates.SupersededCards(l, scope));
    Duplicates.RepairKeepsEveryKey(l, scope);
    forall c1, c2 | c1 in l'.cards && c2 in l'.cards && Identity(l', c1) == Identity(l', c2) && Identity(l', c1).guid != ""
      ensures c1 == c2
    {
      assert Identity(l, c1) == Identity(l', c1) && Identity(l, c2) == Identity(l', c2);
      if c1 != c2 {
        assert Duplicates.Covered(l', scope, c1) && Duplicates.Covered(l', scope, c2);
        assert Duplicates.SameKey(l', scope, c1, c2);
      }
    }
  }

  lemma TombstonesKeepCovered(l: Local, l': Local, scope: set<string>)
    requires DuplicatesCovered(l, scope) && Shrunk(l, l')
    ensures DuplicatesCovered(l', scope)
  {
    forall c1, c2 | c1 in l'.cards && c2 in l'.cards && c1 != c2 && Identity(l', c1) == Identity(l', c2) && Identity(l', c1).guid != ""
      ensures Duplicates.Covered(l', scope, c1) && Duplicates.Covered(l', scope, c2)
    {
      assert Identity(l, c1) == Identity(l', c1) && Identity(l, c2) == Identity(l', c2);
      assert Duplicates.Covered(l, scope, c1) && Duplicates.Covered(l, scope, c2);
    }
  }

  /** Every card belongs to a note, as Anki keeps it. */
  ghost predicate CardsHaveNotes(l: Local) {
    forall c :: c in l.cards ==> c > 0 && l.cards[c].nid in l.notes
  }

  /** What a client may rely on when it starts a pass under these routes. */
  ghost predicate Ready(l: Local, db: Db, names: Option<set<string>>) {
    && NoteSync.DistinctGuids(l.notes) && DuplicatesCovered(l, ScopeOf(names))
    && CardsHaveNotes(l) && (forall r :: r in l.revlog ==> r > 0)
    && NoteRef("") !in db.tombstones && NoteSync.NotesWellTyped(db.records)
    && (forall k :: k in db.cards ==> k.guid != "") && (names.Some? ==> CardSync.UniqueIds(db.cards))
    && (forall r :: r in db.reviews ==> r > 0)
  }

  /** Without a matching scope no tombstone counts, so nothing is applied. */
  lemma NothingApplied(l: Local, s: Snapshot, names: Option<set<string>>, tombstones: set<Ref>, q: seq<Ref>, cascade: (Local, Ref) -> Taken,
                       applied: set<Ref>)
    requires Counts(q, tombstones, s, names) && forall r :: r in applied <==> AppliedByServer(l, q, cascade, r)
    ensures !ScopeMatches(s, names) ==> applied == {}
  {
    if !ScopeMatches(s, names) {
      NoneListed(q);
      assert NoteRefs({}) == {} && CardsOf([]) == [] && DecksOf([]) == [];
      forall r ensures r !in applied { }
    }
  }

  lemma NoneListed(q: seq<Ref>)
    ensures RefSet(q) == {} <==> q == []
  {
    if q != [] { assert q[0] in RefSet(q); }
  }

  lemma RepairKeepsGuids(l: Local, scope: set<string>)
    requires NoteSync.DistinctGuids(l.notes)
    ensures NoteSync.DistinctGuids(Duplicates.Without(l, Duplicates.SupersededCards(l, scope)).notes)
  {
  }

  /**
   * Phases 2 to 5 under any routes: tombstones, repair, and the deletes to send;
   * `view` and `tombstones` are the scoped manifest's.
   */
  method DetectDeletes(state: StateFile, col: Collection, names: Option<set<string>>, view: set<Ref>, tombstones: set<Ref>,
                       cascade: (Local, Ref) -> Taken)
    returns (q: seq<Ref>, applied: set<Ref>, deletes: set<Ref>)
    requires NoteSync.DistinctGuids(col.notes) && NoteRef("") !in tombstones
    modifies col`notes, col`cards, col`decks, col`notetypes, col`revlog
    ensures Counts(q, tombstones, state.snapshot, names) && col.State() == Cleaned(old(col.State()), q, cascade, ScopeOf(names))
    ensures forall r :: r in applied <==> AppliedByServer(old(col.State()), q, cascade, r)
    ensures !ScopeMatches(state.snapshot, names) ==> applied == {}
    ensures deletes == DeletesToSend(state.snapshot, names, LocalKeys(col.State(), ScopeOf(names)), applied, view)
    ensures NoteSync.DistinctGuids(col.notes)
  {
    ghost var l := col.State();
    assert l.notes == col.notes;
    hide *;
    var ts := TombstonesForSnapshot(tombstones, state.snapshot, names);
    TombstonesAreListed(tombstones, state.snapshot, names);
    q := ListOf(ts);
    OrderCounts(q, tombstones, state.snapshot, names);
    applied := ApplyTombstones(col, q, cascade);
    TombstonesKeepGuids(l, q, cascade);
    RepairKeepsGuids(col.State(), ScopeOf(names));
    var _ := Duplicates.RepairDuplicateCards(col, ScopeOf(names));
    CleanedMeans(l, q, cascade, ScopeOf(names));
    GuidsOf(col);
    NothingApplied(l, state.snapshot, names, tombstones, q, cascade, applied);
    deletes := DeletesToSend(state.snapshot, names, LocalKeys(col.State(), ScopeOf(names)), applied, view);
  }

  lemma GuidsOf(col: Collection)
    ensures col.State().notes == col.notes
  {
  }

  lemma OrderCounts(q: seq<Ref>, tombstones: set<Ref>, s: Snapshot, names: Option<set<string>>)
    requires forall r :: r in q <==> r in TombstonesForSnapshot(tombstones, s, names)
    requires forall i, j :: 0 <= i < j < |q| ==> q[i] != q[j]
    ensures Counts(q, tombstones, s, names)
    ensures NoteRef("") !in tombstones ==> NoteRef("") !in q
  {
    ListedOnce(q, TombstonesForSnapshot(tombstones, s, names));
  }

  /** The same, after the manifest arrived and was routed. */
  method PrepareDeletes(state: StateFile, col: Collection, server: Handler, names: Option<set<string>>, planned: int, cascade: (Local, Ref) -> Taken)
    returns (m: Manifest, q: seq<Ref>, applied: set<Ref>, deletes: set<Ref>)
    requires Ready(col.State(), server.State(), names)
    modifies col`notes, col`cards, col`decks, col`notetypes, col`revlog
    ensures m == Routed(ManifestOf(server.State(), None, planned), names) && IsCurrent(m, server.State(), names)
    ensures Counts(q, server.tombstones.Keys, state.snapshot, names)
    ensures col.State() == Cleaned(old(col.State()), q, cascade, ScopeOf(names))
    ensures forall r :: r in applied <==> AppliedByServer(old(col.State()), q, cascade, r)
    ensures !ScopeMatches(state.snapshot, names) ==> applied == {}
    ensures deletes == DeletesToSend(state.snapshot, names, LocalKeys(col.State(), ScopeOf(names)), applied, ViewKeys(server.State(), names))
    ensures NoteSync.DistinctGuids(col.State().notes) && CardSync.DistinctIdentities(col.State())
  {
    ghost var l, db := col.State(), server.State();
    ReadyMeans(l, db, names);
    RoutedIsCurrent(db, names, planned);
    RoutedIsCurrent(db, None, planned);
    ViewIgnoresClock(db, names, planned);
    assert Routed(ManifestOf(db, None, planned), None) == ManifestOf(db, None, planned);
    var full := server.GetManifest(None, planned);
    assert CardSync.CardsListed(full.cards, server.cards);
    assert l.notes == col.notes;
    hide *;
    m := RouteManifest(server, full, names);
    q, applied, deletes := DetectDeletes(state, col, names, ManifestKeys(m), m.tombstones.Keys, cascade);
    CleanedIsDistinct(l, q, cascade, names);
  }

  /** After the repair a collection has no duplicated guid or logical card. */
  lemma CleanedIsDistinct(l: Local, q: seq<Ref>, cascade: (Local, Ref) -> Taken, names: Option<set<string>>)
    requires NoteSync.DistinctGuids(l.notes) && DuplicatesCovered(l, ScopeOf(names))
    ensures NoteSync.DistinctGuids(Cleaned(l, q, cascade, ScopeOf(names)).notes)
    ensures CardSync.DistinctIdentities(Cleaned(l, q, cascade, ScopeOf(names)))
  {
    CleanedMeans(l, q, cascade, ScopeOf(names));
    TombstonesKeepGuids(l, q, cascade);
    OnlyRowsGo(l, q, cascade);
    TombstonesKeepCovered(l, AfterTombstones(l, q, cascade), ScopeOf(names));
    RepairKeepsDistinct(AfterTombstones(l, q, cascade), ScopeOf(names));
    hide *;
  }

  lemma TombstonesKeepGuids(l: Local, q: seq<Ref>, cascade: (Local, Ref) -> Taken)
    requires NoteSync.DistinctGuids(l.notes)
    ensures NoteSync.DistinctGuids(AfterTombstones(l, q, cascade).notes)
  {
    OnlyRowsGo(l, q, cascade);
    hide AfterTombstones;
  }

  lemma TombstonesAreListed(tombstones: set<Ref>, s: Snapshot, names: Option<set<string>>)
    ensures TombstonesForSnapshot(tombstones, s, names) <= tombstones
  {
  }

  lemma ReadyMeans(l: Local, db: Db, names: Option<set<string>>)
    requires Ready(l, db, names)
    ensures NoteSync.DistinctGuids(l.notes) && DuplicatesCovered(l, ScopeOf(names)) && NoteRef("") !in db.tombstones
    ensures (forall k :: k in db.cards ==> k.guid != "") && (names.Some? ==> CardSync.UniqueIds(db.cards)) && forall r :: r in db.reviews ==> r > 0
  {
  }

  lemma CleanedMeans(l: Local, q: seq<Ref>, cascade: (Local, Ref) -> Taken, scope: set<string>)
    ensures var l1 := AfterTombstones(l, q, cascade);
      Cleaned(l, q, cascade, scope) == Duplicates.Without(l1, Duplicates.SupersededCards(l1, scope))
  {
  }

  /** Whether note `g` outlives a pass when the server no longer has it. */
  ghost predicate Outlives(l: Local, q: seq<Ref>, cascade: (Local, Ref) -> Taken, g: string) {
    HasNote(l, g) && NoteRef(g) !in q && NoteRef(g) !in TakenAlong(l, q, cascade)
  }

  lemma CleanedNotes(l: Local, q: seq<Ref>, cascade: (Local, Ref) -> Taken, scope: set<string>, g: string)
    requires NoteSync.DistinctGuids(l.notes) && g != ""
    ensures HasNote(Cleaned(l, q, cascade, scope), g) <==> Outlives(l, q, cascade, g)
  {
    var l1 := AfterTombstones(l, q, cascade);
    GoneIsRecordedOrTaken(l, q, cascade, NoteRef(g));
    OnlyRowsGo(l, q, cascade);
    ShrunkHolds(l, l1, NoteRef(g));
    RepairKeepsNotes(l1, scope, g);
    assert AppliedByServer(l, q, cascade, NoteRef(g)) <==> NoteRef(g) in q && HasNote(l, g);
    assert HeldBy(l1, NoteRef(g)) <==> HasNote(l1, g);
    assert HeldBy(l, NoteRef(g)) <==> HasNote(l, g);
    CleanedMeans(l, q, cascade, scope);
    hide *;
  }

  /** Anki keeps cards with their notes when it takes rows along. */
  ghost predicate Tidy(cascade: (Local, Ref) -> Taken) {
    forall l, r :: CardsHaveNotes(l) ==> CardsHaveNotes(Less(l, cascade(l, r)))
  }

  lemma {:induction false} CardStepsAreTidy(l: Local, q: seq<Ref>, cascade: (Local, Ref) -> Taken)
    requires CardsHaveNotes(l) && Tidy(cascade)
    ensures CardsHaveNotes(AfterCards(l, q, cascade))
  {
    if |q| > 0 {
      var n := |q| - 1;
      var before := AfterCards(l, q[..n], cascade);
      CardStepsAreTidy(l, q[..n], cascade);
      if q[n].CardRef? && q[n].cardId in before.cards {
        assert CardsHaveNotes(before.(cards := before.cards - {q[n].cardId}));
      }
    }
  }

  lemma {:induction false} DeckStepsAreTidy(l: Local, q: seq<Ref>, cascade: (Local, Ref) -> Taken)
    requires CardsHaveNotes(l) && Tidy(cascade)
    ensures CardsHaveNotes(AfterDecks(l, q, cascade))
  {
    if |q| > 0 {
      var n := |q| - 1;
      var before := AfterDecks(l, q[..n], cascade);
      DeckStepsAreTidy(l, q[..n], cascade);
      if q[n].DeckRef? && DeckEmpty(before.cards, q[n].name) {
        assert CardsHaveNotes(before.(decks := before.decks - {q[n].name}));
      }
    }
  }

  lemma TombstonesLeaveNoOrphans(l: Local, q: seq<Ref>, cascade: (Local, Ref) -> Taken)
    requires CardsHaveNotes(l) && Tidy(cascade)
    ensures CardsHaveNotes(AfterTombstones(l, q, cascade)) && AfterTombstones(l, q, cascade).revlog == l.revlog
  {
    var l1, l2, l3 := AfterNotes(l, NoteRefs(RefSet(q))), AfterContent(l, q, cascade), BeforeNotetypes(l, q, cascade);
    assert l1.notes == NotesAfter(l, NoteRefs(RefSet(q)));
    assert CardsHaveNotes(l1);
    CardStepsAreTidy(l1, CardsOf(q), cascade);
    DeckStepsAreTidy(l2, DecksOf(q), cascade);
    OnlyRowsGo(l, q, cascade);
    hide AfterNotes;
    hide AfterCards;
    hide AfterDecks;
    assert AfterTombstones(l, q, cascade) == l3.(notetypes := AfterTombstones(l, q, cascade).notetypes);
  }

  lemma RepairLeavesNoOrphans(l: Local, scope: set<string>)
    requires CardsHaveNotes(l)
    ensures var l' := Duplicates.Without(l, Duplicates.SupersededCards(l, scope));
      CardsHaveNotes(l') && forall r :: r in l'.revlog ==> r in l.revlog
  {
    var removed := Duplicates.SupersededCards(l, scope);
    var l' := Duplicates.Without(l, removed);
    forall c | c in l'.cards
      ensures c > 0 && l'.cards[c].nid in l'.notes
    {
      assert c in l.cards && c !in removed;
      assert !Duplicates.Orphaned(l, removed, l.cards[c].nid);
    }
  }

  /** Cleaning leaves no card without its note and invents no row. */
  lemma CleanedIsTidy(l: Local, q: seq<Ref>, cascade: (Local, Ref) -> Taken, scope: set<string>)
    requires CardsHaveNotes(l) && Tidy(cascade) && forall r :: r in l.revlog ==> r > 0
    ensures CardsHaveNotes(Cleaned(l, q, cascade, scope)) && forall r :: r in Cleaned(l, q, cascade, scope).revlog ==> r > 0
  {
    TombstonesLeaveNoOrphans(l, q, cascade);
    RepairLeavesNoOrphans(AfterTombstones(l, q, cascade), scope);
    CleanedMeans(l, q, cascade, scope);
    hide AfterTombstones;
    hide Duplicates.Without;
    hide Duplicates.SupersededCards;
    hide Cleaned;
  }
}
