// The incremental manifest refines the full one (internal/handler/manifest.go):
// a client that applies a delta to what it knew at time t0 knows exactly what a
// full manifest would tell it now.

module Incremental {
  import opened Prelude
  import opened Clock
  import opened ServerSpec
  import opened ServerRuns

  ghost predicate After(h: seq<Event>, t0: int) {
    forall e <- h :: e.at > t0
  }

  // -------------------------------------------------- notes, notetypes, decks --

  function ApplyDelta(full: map<GuardedRef, Entry>, delta: Manifest): map<GuardedRef, Entry> {
    (map r | r in full && r !in delta.tombstones :: full[r]) + delta.records
  }

  /** How the present `now` relates to the state `was` at t0, for one resource. */
  ghost predicate Tracked(was: Db, now: Db, t0: int, r: GuardedRef) {
    && (r in now.records && now.records[r].modifiedAt <= t0 ==>
        r in was.records && now.records[r] == was.records[r])
    && (r in was.records && r !in now.records ==> r in now.tombstones && now.tombstones[r] > t0)
  }

  lemma StepTracked(was: Db, now: Db, e: Event, t0: int, r: GuardedRef)
    requires Tracked(was, now, t0, r) && e.at > t0
    ensures Tracked(was, Apply(now, e), t0, r)
  {
    if !e.atom.DeleteAtom? {
      WritesAreWellWritten(now, e);
      if r in WritesOf(now, e).clear { ClearedIsLive(now, e, r); }
    }
  }

  lemma {:induction false} RunTracked(db: Db, h: seq<Event>, t0: int, r: GuardedRef)
    requires After(h, t0)
    ensures Tracked(db, Run(db, h), t0, r)
  {
    if |h| > 0 {
      RunTracked(db, h[..|h| - 1], t0, r);
      StepTracked(db, Run(db, h[..|h| - 1]), h[|h| - 1], t0, r);
    }
  }

  /**
   * Take the full manifest at t0, any run after it, and the delta since t0:
   * dropping the delta's tombstones and overwriting with its entries gives the
   * full manifest of the new state.
   */
  lemma DeltaRefinesFull(db: Db, h: seq<Event>, t0: int, t1: int)
    requires NeverBoth(db) && After(h, t0)
    ensures ApplyDelta(ManifestOf(db, None, t0).records, ManifestOf(Run(db, h), Some(t0), t1))
         == ManifestOf(Run(db, h), None, t1).records
  {
    var db' := Run(db, h);
    var got := ApplyDelta(ManifestOf(db, None, t0).records, ManifestOf(db', Some(t0), t1));
    var want := ManifestOf(db', None, t1).records;
    forall r: GuardedRef
      ensures r in got <==> r in want
      ensures r in want ==> got[r] == want[r]
    {
      RunTracked(db, h, t0, r);
      RunIdentity(db, h, 0);
      assert r in db'.records ==> Live(db', r);
    }
  }

  // ------------------------------------------------------ reviews, study days --

  ghost predicate LogTracked(was: Db, now: Db, t0: int) {
    && (forall i :: i in was.reviews ==> i in now.reviews && now.reviews[i] == was.reviews[i])
    && (forall i :: i in now.reviews && now.reviews[i].modifiedAt <= t0 ==> i in was.reviews)
    && (forall k :: k in was.studyDays ==> k in now.studyDays)
    && (forall k :: k in now.studyDays && now.studyDays[k].modifiedAt <= t0 ==>
        k in was.studyDays && now.studyDays[k] == was.studyDays[k])
  }

  lemma {:induction false} RunLogTracked(db: Db, h: seq<Event>, t0: int)
    requires After(h, t0)
    ensures LogTracked(db, Run(db, h), t0)
  {
    if |h| > 0 {
      RunLogTracked(db, h[..|h| - 1], t0);
      WritesAreWellWritten(Run(db, h[..|h| - 1]), h[|h| - 1]);
    }
  }

  /** The logs only grow, so their deltas need no tombstones. */
  lemma LogDeltaRefinesFull(db: Db, h: seq<Event>, t0: int, t1: int)
    requires After(h, t0)
    ensures ManifestOf(db, None, t0).reviews + ManifestOf(Run(db, h), Some(t0), t1).reviews
         == ManifestOf(Run(db, h), None, t1).reviews
    ensures ManifestOf(db, None, t0).studyDays + ManifestOf(Run(db, h), Some(t0), t1).studyDays
         == ManifestOf(Run(db, h), None, t1).studyDays
  {
    RunLogTracked(db, h, t0);
    LogDeltaAt(db, Run(db, h), t0, t1);
  }

  lemma LogDeltaAt(db: Db, db': Db, t0: int, t1: int)
    requires LogTracked(db, db', t0)
    ensures ManifestOf(db, None, t0).reviews + ManifestOf(db', Some(t0), t1).reviews == ManifestOf(db', None, t1).reviews
    ensures ManifestOf(db, None, t0).studyDays + ManifestOf(db', Some(t0), t1).studyDays == ManifestOf(db', None, t1).studyDays
  {
    ReviewDeltaAt(db, db', t0, t1);
    StudyDeltaAt(db, db', t0, t1);
    hide ManifestOf;
  }

  lemma ReviewDeltaAt(db: Db, db': Db, t0: int, t1: int)
    requires LogTracked(db, db', t0)
    ensures ManifestOf(db, None, t0).reviews + ManifestOf(db', Some(t0), t1).reviews == ManifestOf(db', None, t1).reviews
  {
    var was, delta, now := ManifestOf(db, None, t0).reviews, ManifestOf(db', Some(t0), t1).reviews, ManifestOf(db', None, t1).reviews;
    forall i
      ensures i in was + delta <==> i in now
      ensures i in now ==> (was + delta)[i] == now[i]
    {
    }
  }

  lemma StudyDeltaAt(db: Db, db': Db, t0: int, t1: int)
    requires LogTracked(db, db', t0)
    ensures ManifestOf(db, None, t0).studyDays + ManifestOf(db', Some(t0), t1).studyDays == ManifestOf(db', None, t1).studyDays
  {
    var was, delta, now := ManifestOf(db, None, t0).studyDays, ManifestOf(db', Some(t0), t1).studyDays, ManifestOf(db', None, t1).studyDays;
    assert forall k :: k in was + delta <==> k in now;
  }

  // -------------------------------------------------------------------- cards --

  /** Card tombstones name card ids, so clients key the card manifest by id. */
  datatype IdEntry = IdEntry(key: CardKey, entry: CardEntry)

  /** `table` is the card manifest keyed by card id; no two cards share one. */
  ghost predicate Tabulates(table: map<int, IdEntry>, cards: map<CardKey, CardEntry>) {
    && (forall k :: k in cards ==> cards[k].cardId in table && table[cards[k].cardId] == IdEntry(k, cards[k]))
    && (forall i :: i in table ==>
        table[i].key in cards && cards[table[i].key] == table[i].entry && table[i].entry.cardId == i)
  }

  ghost predicate UniqueIds(cards: map<CardKey, CardEntry>) {
    forall k1, k2 :: k1 in cards && k2 in cards && cards[k1].cardId == cards[k2].cardId ==> k1 == k2
  }

  function ApplyCardDelta(full: map<int, IdEntry>, delta: map<int, IdEntry>, tombstones: map<Ref, int>): map<int, IdEntry> {
    (map i | i in full && CardRef(i) !in tombstones :: full[i]) + delta
  }

  ghost predicate CardTracked(was: Db, now: Db, t0: int, id: int) {
    && (forall k :: k in now.cards && now.cards[k].cardId == id && now.cards[k].modifiedAt <= t0 ==>
        k in was.cards && now.cards[k] == was.cards[k])
    && ((forall k :: k in was.cards && was.cards[k].cardId == id ==> k in now.cards && now.cards[k].cardId == id)
        || ((forall k :: k in now.cards && now.cards[k].cardId == id ==> now.cards[k].modifiedAt > t0)
            && (Live(now, CardRef(id)) || (CardRef(id) in now.tombstones && now.tombstones[CardRef(id)] > t0))))
  }

  lemma StepCardTracked(was: Db, now: Db, e: Event, t0: int, id: int)
    requires CardTracked(was, now, t0, id) && e.at > t0
    ensures CardTracked(was, Apply(now, e), t0, id)
  {
    var now' := Apply(now, e);
    if e.atom.DeleteAtom? {
      LiveAfterDelete(now, e.atom.ref, e.at, CardRef(id));
    } else {
      var w := WritesOf(now, e);
      WritesAreWellWritten(now, e);
      LiveAfterOverlay(now, w, e.at, CardRef(id));
      if CardRef(id) in w.clear { ClearedIsLive(now, e, CardRef(id)); }
    }
  }

  lemma {:induction false} RunCardTracked(db: Db, h: seq<Event>, t0: int, id: int)
    requires After(h, t0)
    ensures CardTracked(db, Run(db, h), t0, id)
  {
    if |h| > 0 {
      RunCardTracked(db, h[..|h| - 1], t0, id);
      StepCardTracked(db, Run(db, h[..|h| - 1]), h[|h| - 1], t0, id);
    }
  }

  /** A table by card id exists for exactly the manifests in which no two cards share one. */
  lemma TableNeedsUniqueIds(cards: map<CardKey, CardEntry>)
    ensures (exists table :: Tabulates(table, cards)) <==> UniqueIds(cards)
  {
    if UniqueIds(cards) {
      var table := map k | k in cards :: cards[k].cardId := IdEntry(k, cards[k]);
      assert Tabulates(table, cards);
    }
  }

  /**
   * The same for cards: a client whose table was right at t0 can be brought up to
   * date by the delta if and only if no two cards share an id at the end.  That it
   * had a table at t0 says the same of the beginning (TableNeedsUniqueIds).
   */
  lemma CardDeltaRefinesFull(db: Db, h: seq<Event>, t0: int, t1: int, known: map<int, IdEntry>)
    requires NeverBoth(db) && After(h, t0) && Tabulates(known, ManifestOf(db, None, t0).cards)
    ensures UniqueIds(ManifestOf(Run(db, h), None, t1).cards) <==>
      exists delta :: Tabulates(delta, ManifestOf(Run(db, h), Some(t0), t1).cards)
        && Tabulates(ApplyCardDelta(known, delta, ManifestOf(Run(db, h), Some(t0), t1).tombstones),
                     ManifestOf(Run(db, h), None, t1).cards)
  {
    var db' := Run(db, h);
    CardViews(db, t0, t0);
    CardViews(db', t0, t1);
    hide *;
    UpdateExists(db, h, t0, known);
  }

  lemma SinceIsUnique(db: Db, t0: int)
    requires UniqueIds(AllCards(db))
    ensures UniqueIds(CardsSince(db, t0))
  {
    assert forall k :: k in CardsSince(db, t0) ==> k in AllCards(db) && CardsSince(db, t0)[k] == AllCards(db)[k];
  }

  lemma UpdateExists(db: Db, h: seq<Event>, t0: int, known: map<int, IdEntry>)
    requires NeverBoth(db) && After(h, t0) && Tabulates(known, AllCards(db))
    ensures UniqueIds(AllCards(Run(db, h))) <==>
      exists delta :: Tabulates(delta, CardsSince(Run(db, h), t0))
        && Tabulates(ApplyCardDelta(known, delta, TombstonesSince(Run(db, h), t0)), AllCards(Run(db, h)))
  {
    var db' := Run(db, h);
    TableNeedsUniqueIds(AllCards(db'));
    TableNeedsUniqueIds(CardsSince(db', t0));
    if UniqueIds(AllCards(db')) {
      SinceIsUnique(db', t0);
      hide *;
      var delta :| Tabulates(delta, CardsSince(db', t0));
      TableIsUpdated(db, h, t0, known, delta);
    }
  }

  /** Given both tables, the updated one is right exactly when ids are unique at the end. */
  lemma TableIsUpdated(db: Db, h: seq<Event>, t0: int, known: map<int, IdEntry>, delta: map<int, IdEntry>)
    requires NeverBoth(db) && After(h, t0)
    requires Tabulates(known, AllCards(db)) && Tabulates(delta, CardsSince(Run(db, h), t0))
    ensures Tabulates(ApplyCardDelta(known, delta, TombstonesSince(Run(db, h), t0)), AllCards(Run(db, h)))
       <==> UniqueIds(AllCards(Run(db, h)))
  {
    RunIdentity(db, h, 0);
    forall id
      ensures CardTracked(db, Run(db, h), t0, id)
    {
      RunCardTracked(db, h, t0, id);
    }
    if UniqueIds(AllCards(Run(db, h))) {
      CardDelta(db, Run(db, h), t0, known, delta);
    }
  }

  function AllCards(db: Db): map<CardKey, CardEntry> {
    map k | k in db.cards :: CardEntryOf(db.cards[k])
  }

  function CardsSince(db: Db, t0: int): map<CardKey, CardEntry> {
    map k | k in db.cards && db.cards[k].modifiedAt > t0 :: CardEntryOf(db.cards[k])
  }

  function TombstonesSince(db: Db, t0: int): map<Ref, int> {
    map r | r in db.tombstones && db.tombstones[r] > t0 :: db.tombstones[r]
  }

  lemma CardViews(db: Db, t0: int, now: int)
    ensures ManifestOf(db, None, now).cards == AllCards(db)
    ensures ManifestOf(db, Some(t0), now).cards == CardsSince(db, t0)
    ensures ManifestOf(db, Some(t0), now).tombstones == TombstonesSince(db, t0)
  {
  }

  lemma CardDelta(db: Db, db': Db, t0: int, known: map<int, IdEntry>, delta: map<int, IdEntry>)
    requires NeverBoth(db') && forall id :: CardTracked(db, db', t0, id)
    requires Tabulates(known, AllCards(db))
    requires Tabulates(delta, CardsSince(db', t0))
    requires UniqueIds(AllCards(db'))
    ensures Tabulates(ApplyCardDelta(known, delta, TombstonesSince(db', t0)), AllCards(db'))
  {
    var now := AllCards(db');
    var table := ApplyCardDelta(known, delta, TombstonesSince(db', t0));
    forall k | k in now
      ensures now[k].cardId in table && table[now[k].cardId] == IdEntry(k, now[k])
    {
      var id := now[k].cardId;
      assert Live(db', CardRef(id));
      assert CardTracked(db, db', t0, id);
      if db'.cards[k].modifiedAt > t0 {
        assert k in CardsSince(db', t0);
      } else {
        assert k in AllCards(db) && known[id] == IdEntry(k, now[k]);
        assert id in delta ==> delta[id].key in now && now[delta[id].key].cardId == id;
      }
    }
    forall id | id in table
      ensures table[id].key in now && now[table[id].key] == table[id].entry && table[id].entry.cardId == id
    {
      var k := table[id].key;
      assert CardTracked(db, db', t0, id);
      if id !in delta {
        assert k in db.cards && db.cards[k].cardId == id;
        assert CardRef(id) !in TombstonesSince(db', t0);
        if Live(db', CardRef(id)) {
          var k2 :| k2 in db'.cards && db'.cards[k2].cardId == id;
          assert k2 in now && (db'.cards[k2].modifiedAt > t0 ==> k2 in CardsSince(db', t0));
        }
      }
    }
  }

  // A client may as well keep its cards by logical identity, as the manifest lists them.

  function ApplyKeyedDelta(full: map<CardKey, CardEntry>, delta: Manifest): map<CardKey, CardEntry> {
    (map k | k in full && CardRef(full[k].cardId) !in delta.tombstones :: full[k]) + delta.cards
  }

  /** A card that is gone while its id lives on, under another card. */
  ghost predicate LeftBehind(was: Db, now: Db, k: CardKey) {
    k in was.cards && k !in now.cards && Live(now, CardRef(was.cards[k].cardId))
  }

  /** Such a client is right after the delta if and only if no card was left behind. */
  lemma KeyedDeltaRefinesFull(db: Db, h: seq<Event>, t0: int, t1: int)
    requires NeverBoth(db) && After(h, t0)
    ensures ApplyKeyedDelta(ManifestOf(db, None, t0).cards, ManifestOf(Run(db, h), Some(t0), t1))
         == ManifestOf(Run(db, h), None, t1).cards
       <==> forall k :: !LeftBehind(db, Run(db, h), k)
  {
    var db' := Run(db, h);
    RunIdentity(db, h, 0);
    forall id
      ensures CardTracked(db, db', t0, id)
    {
      RunCardTracked(db, h, t0, id);
    }
    hide Run;
    CardViews(db, t0, t0);
    CardViews(db', t0, t1);
    forall k
      ensures KeyedAt(db, db', t0, k) <==> !LeftBehind(db, db', k)
    {
      KeyedDelta(db, db', t0, k);
    }
    KeyedEverywhere(db, db', t0, ManifestOf(db', Some(t0), t1));
  }

  /** The updated map is right about one card. */
  ghost predicate KeyedAt(was: Db, now: Db, t0: int, k: CardKey) {
    var kept := k in was.cards && CardRef(was.cards[k].cardId) !in TombstonesSince(now, t0);
    if k in CardsSince(now, t0) then true
    else (k in now.cards <==> kept) && (k in now.cards && kept ==> CardEntryOf(now.cards[k]) == CardEntryOf(was.cards[k]))
  }

  lemma KeyedDelta(was: Db, now: Db, t0: int, k: CardKey)
    requires NeverBoth(now) && forall id :: CardTracked(was, now, t0, id)
    ensures KeyedAt(was, now, t0, k) <==> !LeftBehind(was, now, k)
  {
    if k in was.cards {
      assert CardTracked(was, now, t0, was.cards[k].cardId);
    }
    if k in now.cards {
      assert CardTracked(was, now, t0, now.cards[k].cardId);
      assert Live(now, CardRef(now.cards[k].cardId));
    }
  }

  lemma KeyedEverywhere(was: Db, now: Db, t0: int, delta: Manifest)
    requires delta.cards == CardsSince(now, t0) && delta.tombstones == TombstonesSince(now, t0)
    ensures ApplyKeyedDelta(AllCards(was), delta) == AllCards(now) <==> forall k :: KeyedAt(was, now, t0, k)
  {
    var got, want := ApplyKeyedDelta(AllCards(was), delta), AllCards(now);
    forall k
      ensures KeyedAt(was, now, t0, k) <==> (k in got <==> k in want) && (k in want ==> got[k] == want[k])
    {
    }
    if forall k :: KeyedAt(was, now, t0, k) {
      forall k ensures (k in got <==> k in want) && (k in want ==> got[k] == want[k]) { assert KeyedAt(was, now, t0, k); }
    }
  }

  /**
   * Two notes pushed the same card id, one deletion removed both cards, and one
   * was pushed again: its write clears the only tombstone, so the delta never
   * mentions the other card, which the client keeps for ever.  Ids are unique at
   * the end; they were not when the client read its full manifest.
   */
  lemma SharedIdDefeatsTheCardDelta(s: Scheduling)
    ensures var a, b := CardKey("a", 0), CardKey("b", 0);
      var db := Run(EMPTY_DB, [Event(1, CardAtom(CardPut(7, a, "D", s, 1))), Event(2, CardAtom(CardPut(7, b, "D", s, 1)))]);
      var h := [Event(4, DeleteAtom(CardRef(7))), Event(5, CardAtom(CardPut(7, a, "D", s, 4)))];
      && LeftBehind(db, Run(db, h), b)
      && b in ApplyKeyedDelta(ManifestOf(db, None, 3).cards, ManifestOf(Run(db, h), Some(3), 6))
      && b !in ManifestOf(Run(db, h), None, 6).cards
      && !UniqueIds(ManifestOf(db, None, 3).cards) && UniqueIds(ManifestOf(Run(db, h), None, 6).cards)
  {
    hide *;
    SharedIdBefore(s);
    SharedIdAfter(s);
    SharedIdManifests(s);
  }

  function SharedIdDb(s: Scheduling): Db {
    EMPTY_DB.(cards := map[CardKey("a", 0) := Card(7, "D", s, 1, 1), CardKey("b", 0) := Card(7, "D", s, 2, 1)])
  }

  function SharedIdDb'(s: Scheduling): Db {
    EMPTY_DB.(cards := map[CardKey("a", 0) := Card(7, "D", s, 5, 4)])
  }

  lemma SharedIdBefore(s: Scheduling)
    ensures Run(EMPTY_DB, [Event(1, CardAtom(CardPut(7, CardKey("a", 0), "D", s, 1))),
                           Event(2, CardAtom(CardPut(7, CardKey("b", 0), "D", s, 1)))]) == SharedIdDb(s)
  {
    var c1, c2 := CardPut(7, CardKey("a", 0), "D", s, 1), CardPut(7, CardKey("b", 0), "D", s, 1);
    var db1 := EMPTY_DB.(cards := map[CardKey("a", 0) := Card(7, "D", s, 1, 1)]);
    AcceptedCard(EMPTY_DB, c1, 1);
    AcceptedCard(db1, c2, 2);
    RunTwo(EMPTY_DB, Event(1, CardAtom(c1)), Event(2, CardAtom(c2)));
    hide Apply;
    hide Run;
    assert Apply(EMPTY_DB, Event(1, CardAtom(c1))) == db1;
  }

  lemma SharedIdAfter(s: Scheduling)
    ensures Run(SharedIdDb(s), [Event(4, DeleteAtom(CardRef(7))), Event(5, CardAtom(CardPut(7, CardKey("a", 0), "D", s, 4)))]) == SharedIdDb'(s)
  {
    var e4, c5 := Event(4, DeleteAtom(CardRef(7))), CardPut(7, CardKey("a", 0), "D", s, 4);
    var db4 := EMPTY_DB.(tombstones := map[CardRef(7) := 4]);
    assert WithoutCardId(SharedIdDb(s).cards, 7) == map[];
    assert Apply(SharedIdDb(s), e4) == db4;
    AcceptedCard(db4, c5, 5);
    RunTwo(SharedIdDb(s), e4, Event(5, CardAtom(c5)));
    hide Apply;
    hide Run;
  }

  lemma SharedIdManifests(s: Scheduling)
    ensures LeftBehind(SharedIdDb(s), SharedIdDb'(s), CardKey("b", 0))
    ensures CardKey("b", 0) in ApplyKeyedDelta(ManifestOf(SharedIdDb(s), None, 3).cards, ManifestOf(SharedIdDb'(s), Some(3), 6))
    ensures CardKey("b", 0) !in ManifestOf(SharedIdDb'(s), None, 6).cards
    ensures !UniqueIds(ManifestOf(SharedIdDb(s), None, 3).cards)
    ensures UniqueIds(ManifestOf(SharedIdDb'(s), None, 6).cards)
  {
    var was, now := SharedIdDb(s), SharedIdDb'(s);
    assert CardKey("a", 0) in now.cards && now.cards[CardKey("a", 0)].cardId == 7;
    CardViews(was, 3, 3);
    CardViews(now, 3, 6);
    assert CardKey("a", 0) in AllCards(was) && CardKey("b", 0) in AllCards(was);
    assert CardKey("a", 0) != CardKey("b", 0);
  }

  lemma AcceptedCard(db: Db, c: CardPut, now: int)
    requires c.key.guid != "" && CardAccepts(db, c, now)
    ensures var id := CanonicalCardId(db, c.key, c.cardId);
      Apply(db, Event(now, CardAtom(c))) ==
      db.(cards := db.cards[c.key := Card(id, c.deck, c.scheduling, now, UtcWriteTime(now, c.clientModifiedAt))],
          tombstones := db.tombstones - {CardRef(id)})
  {
  }

  lemma RunTwo(db: Db, e1: Event, e2: Event)
    ensures Run(db, [e1, e2]) == Apply(Apply(db, e1), e2)
  {
    assert [e1, e2][..1] == [e1] && [e1][..0] == [];
    assert Run(db, [e1]) == Apply(db, e1);
  }
}
