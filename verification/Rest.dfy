// How many passes of one client lead to the state in which a pass has nothing to do.

module Rest {
  import opened Prelude
  import opened ServerSpec
  import opened Anki
  import opened Deletes
  import opened Cleaning
  import opened Phases
  import CardSync
  import Clock
  import Duplicates
  import NoteSync
  import ReviewSync
  import StructureSync
  import opened CalmPass

  // ------------------------------------------------------------------ two calm passes --

  /** The second pass starts where the first ended, later, on the same client. */
  ghost predicate Consecutive(d1: Did, d2: Did) {
    && d2.l == d1.l' && d2.db == d1.db' && d2.s == d1.s' && d2.c.engine == d1.c.engine
    && d1.c.clocks.reviewsPushed <= d2.c.clocks.planned
  }

  ghost predicate TwoCalm(d1: Did, d2: Did, c: Setting) {
    && Calm(d1) && Calm(d2) && Consecutive(d1, d2)
    && c.names == None && c.engine == d2.c.engine && d2.c.clocks.reviewsPushed <= c.clocks.planned
  }

  lemma TwoCalmMeans(d1: Did, d2: Did, c: Setting)
    requires TwoCalm(d1, d2, c)
    ensures Calm(d1) && Calm(d2) && Consecutive(d1, d2)
    ensures d2.l == d1.l' && d2.db == d1.db' && d2.s == d1.s' && d2.c.engine == d1.c.engine && c.engine == d1.c.engine && c.names == None
    ensures d1.c.clocks.reviewsPushed <= d2.c.clocks.planned && d2.c.clocks.reviewsPushed <= c.clocks.planned
  {
    hide Calm;
  }

  lemma GoodStructure(l: Local, db: Db, r: GuardedRef, now: int)
    requires RowsGood(db, now)
    ensures StructureSync.Good(StructureSync.PairOf(l, db.records, r), now)
  {
  }

  lemma GoodNote(l: Local, db: Db, g: string, now: int)
    requires RowsGood(db, now) && Clock.SECOND <= now && NoteSync.WellTyped(NoteSync.PairOf(l.notes, db.records, g))
    ensures NoteSync.Good(NoteSync.PairOf(l.notes, db.records, g), now)
  {
  }

  lemma GoodCard(l: Local, db: Db, k: CardKey, now: int)
    requires RowsGood(db, now) && Clock.SECOND <= now
    ensures CardSync.Good(CardSync.PairOf(l, db.cards, k), now)
  {
  }

  // Notes.

  lemma ListedNote(l: Local, db: Db, g: string)
    requires Complete(l, db) && g != ""
    ensures var p := NoteSync.PairOf(l.notes, db.records, g); p.server.Some? ==> p.local.Some?
  {
    NamedIffHas(l, {}, g);
  }

  lemma NoteAtRest(d1: Did, d2: Did, c: Setting, g: string)
    requires TwoCalm(d1, d2, c) && Complete(d1.l, d1.db) && g != ""
    ensures var p := NoteSync.PairOf(d2.l'.notes, d2.db'.records, g);
      NoteSync.WellTyped(p) && NoteSync.PlanOf(c.engine.nfc, p, NoteEnv(c, FullManifest(d2.db', c))) == NoteSync.Skip
  {
    hide *;
    TwoCalmMeans(d1, d2, c);
    CalmNote(d1, g);
    CalmNote(d2, g);
    CalmStart(d1);
    CalmStart(d2);
    var p := NoteSync.PairOf(d1.l.notes, d1.db.records, g);
    var e1, e2, e3 := NoteEnv(d1.c, FullManifest(d1.db, d1.c)), NoteEnv(d2.c, FullManifest(d2.db, d2.c)), NoteEnv(c, FullManifest(d2.db', c));
    NoteClocks(d1.c, d1.db);
    NoteClocks(d2.c, d2.db);
    GoodNote(d1.l, d1.db, g, e1.now);
    ListedNote(d1.l, d1.db, g);
    NoteSync.TwoPassesSettleNote(d1.c.engine.nfc, d1.c.engine.rewrite, g, p, e1, e2, e3, d1.tr.structured.notetypes, d2.tr.structured.notetypes);
  }

  lemma NoteClocks(c: Setting, db: Db)
    ensures var e := NoteEnv(c, FullManifest(db, c)); e.now == c.clocks.planned && e.pushedAt == c.clocks.notesPushed
    ensures InOrder(c.clocks) ==> Clock.SECOND <= c.clocks.planned <= c.clocks.notesPushed <= c.clocks.reviewsPushed
  {
  }

  // Cards.

  lemma ListedCard(l: Local, db: Db, k: CardKey)
    requires Complete(l, db)
    ensures var p := CardSync.PairOf(l, db.cards, k); p.server.Some? ==> p.local.Some?
  {
  }

  lemma CardClocks(c: Setting, db: Db)
    ensures var e := CardEnv(c, FullManifest(db, c), false);
      e.now == c.clocks.planned && e.pushedAt == c.clocks.cardsPushed && !e.preferServer
    ensures InOrder(c.clocks) ==> Clock.SECOND <= c.clocks.planned <= c.clocks.cardsPushed <= c.clocks.reviewsPushed
  {
  }

  /** Two calm passes leave a card nothing to do; the second left it in its deck. */
  lemma CardAtRest(d1: Did, d2: Did, c: Setting, k: CardKey)
    requires TwoCalm(d1, d2, c) && Complete(d1.l, d1.db) && Complete(d2.l, d2.db) && k.guid != ""
    ensures var p := CardSync.PairOf(d2.l', d2.db'.cards, k);
      CardSync.PlanOf(c.engine.fold, p.local, CardSync.EntryOfPair(p), CardEnv(c, FullManifest(d2.db', c), false), false) == CardSync.Skip
    ensures var was, now := CardSync.CardNamed(d2.l, k), CardSync.CardNamed(d2.l', k);
      && (was.Some? <==> now.Some?)
      && (was.Some? ==> now.value.cid == was.value.cid && now.value.row.deck == was.value.row.deck
                        && now.value.row.scheduling.odid == was.value.row.scheduling.odid)
  {
    hide *;
    TwoCalmMeans(d1, d2, c);
    CalmCard(d1, k);
    CalmCard(d2, k);
    CalmStart(d1);
    CalmStart(d2);
    CalmFields(d1);
    var p := CardSync.PairOf(d1.l, d1.db.cards, k);
    var e1, e2, e3 := CardEnv(d1.c, FullManifest(d1.db, d1.c), false), CardEnv(d2.c, FullManifest(d2.db, d2.c), false), CardEnv(c, FullManifest(d2.db', c), false);
    CardClocks(d1.c, d1.db);
    CardClocks(d2.c, d2.db);
    CardClocks(c, d2.db');
    GoodCard(d1.l, d1.db, k, e1.now);
    ListedCard(d1.l, d1.db, k);
    CardSync.TwoPassesSettleCard(d1.c.engine.fold, k, p, e1, e2, e3, d1.l.crt);
    CardPairs(d2.l, d2.db, k);
    CardPairs(d2.l', d2.db', k);
  }

  lemma CardPairs(l: Local, db: Db, k: CardKey)
    ensures CardSync.PairOf(l, db.cards, k).local == CardSync.CardNamed(l, k)
  {
  }

  // Structures.

  /** In the second of two calm passes no card changes its deck, so Default stays scaffold or not. */
  lemma ScaffoldStays(d1: Did, d2: Did, c: Setting, r: GuardedRef)
    requires TwoCalm(d1, d2, c) && Complete(d1.l, d1.db) && Complete(d2.l, d2.db)
    ensures StructureSync.Scaffold(d2.l', r) == StructureSync.Scaffold(d2.l, r)
  {
    hide *;
    TwoCalmMeans(d1, d2, c);
    CalmCards(d2);
    CalmFields(d2);
    CalmStart(d2);
    CalmEnd(d2);
    forall x | x in d2.l.cards
      ensures x in d2.l'.cards && d2.l'.cards[x].deck == d2.l.cards[x].deck
      ensures x in d2.l'.cards && d2.l'.cards[x].scheduling.odid == d2.l.cards[x].scheduling.odid
    {
      var k := Identity(d2.l, x);
      if k.guid == "" {
        BlankCardStays(d2.l, d2.l', x);
      } else {
        CardAtRest(d1, d2, c, k);
        NamedAs(d2.l, x, k);
        NamedAs(d2.l', x, k);
      }
    }
    SameDecks(d2.l, d2.l', r);
  }

  lemma BlankCardStays(l: Local, l': Local, x: int)
    requires BlankCardsKept(l, l') && x in l.cards && Identity(l, x).guid == ""
    ensures x in l'.cards && l'.cards[x] == l.cards[x]
  {
  }

  lemma NamedAs(l: Local, x: int, k: CardKey)
    requires CardSync.DistinctIdentities(l) && x in l.cards && Identity(l, x) == k && k.guid != ""
    ensures CardSync.CardNamed(l, k) == Some(CardSync.LocalCard(x, l.cards[x]))
  {
    CardSync.NamedCard(l, x, k);
  }

  lemma SameDecks(l: Local, l': Local, r: GuardedRef)
    requires l'.cards.Keys == l.cards.Keys && l'.deckNames == l.deckNames
    requires forall x :: x in l.cards ==> l'.cards[x].deck == l.cards[x].deck && l'.cards[x].scheduling.odid == l.cards[x].scheduling.odid
    ensures StructureSync.Scaffold(l', r) == StructureSync.Scaffold(l, r)
  {
    assert forall x :: x in l.cards ==> HomeDeck(l', x) == HomeDeck(l, x);
  }

  lemma StructureClocks(c: Setting, db: Db)
    ensures var e := StructureEnv(c, FullManifest(db, c), false);
      e.now == c.clocks.planned && e.pushedAt == c.clocks.structurePushed && !e.preferServer && e.defaults == c.engine.defaults
    ensures InOrder(c.clocks) ==> Clock.SECOND <= c.clocks.planned <= c.clocks.structurePushed <= c.clocks.reviewsPushed
  {
  }

  /** Every structure the server has or should have is in use as far as a pass compares it. */
  predicate InUse(l: Local, db: Db, c: Setting, r: GuardedRef) {
    r.DeckRef? || (r.NotetypeRef? && r.notetypeId in ComparedNotetypes(l, {}, FullManifest(db, c), db.records))
  }

  lemma StructureAtRest(d1: Did, d2: Did, c: Setting, r: GuardedRef)
    requires TwoCalm(d1, d2, c) && Complete(d1.l, d1.db) && Complete(d2.l, d2.db) && InUse(d2.l', d2.db', c, r)
    ensures StructureSync.PlanFor(StructureSync.PairOf(d2.l', d2.db'.records, r), StructureEnv(c, FullManifest(d2.db', c), false),
                                  StructureSync.Scaffold(d2.l', r)) == StructureSync.Skip
  {
    hide *;
    TwoCalmMeans(d1, d2, c);
    StillCompared(d1, d2, c, r);
    CalmStructure(d1, r);
    CalmStructure(d2, r);
    ScaffoldStays(d1, d2, c, r);
    CalmStart(d1);
    CalmStart(d2);
    StructureClocks(d1.c, d1.db);
    StructureClocks(d2.c, d2.db);
    StructureClocks(c, d2.db');
    GoodStructure(d1.l, d1.db, r, d1.c.clocks.planned);
    StructureRests(StructureSync.PairOf(d1.l, d1.db.records, r), StructureEnv(d1.c, FullManifest(d1.db, d1.c), false),
                   StructureEnv(d2.c, FullManifest(d2.db, d2.c), false), StructureEnv(c, FullManifest(d2.db', c), false),
                   StructureSync.Scaffold(d1.l, r), StructureSync.Scaffold(d2.l, r));
  }

  lemma StructureRests(p: StructureSync.Pair, e1: StructureSync.Env, e2: StructureSync.Env, e3: StructureSync.Env, scaffold1: bool, scaffold2: bool)
    requires StructureSync.Good(p, e1.now) && Clock.SECOND <= e1.now <= e1.pushedAt <= e2.now <= e2.pushedAt <= e3.now
    requires !e1.preferServer && !e2.preferServer && !e3.preferServer && e1.defaults == e2.defaults == e3.defaults
    requires StructureSync.PlanFor(p, e1, scaffold1) != StructureSync.Conflict
    requires StructureSync.PlanFor(StructureSync.OutcomeIn(p, p, e1, scaffold1), e2, scaffold2) != StructureSync.Conflict
    ensures var p1 := StructureSync.OutcomeIn(p, p, e1, scaffold1);
      StructureSync.PlanFor(StructureSync.OutcomeIn(p1, p1, e2, scaffold2), e3, scaffold2) == StructureSync.Skip
  {
    hide StructureSync.OutcomeIn;
    hide StructureSync.PlanFor;
    hide StructureSync.Good;
    StructureSync.TwoPassesSettleStructure(p, e1, e2, e3, scaffold1, scaffold2, scaffold2);
  }

  lemma StillCompared(d1: Did, d2: Did, c: Setting, r: GuardedRef)
    requires TwoCalm(d1, d2, c) && InUse(d2.l', d2.db', c, r)
    ensures r.DeckRef? || (r.NotetypeRef? && r.notetypeId in d1.tr.compared && r.notetypeId in d2.tr.compared)
  {
    hide *;
    TwoCalmMeans(d1, d2, c);
    UsedMeans(d2.l', d2.db', c, r);
    if !r.DeckRef? {
      ComparedShrinks(d2, c);
      CalmMeans(d2);
      ComparedShrinks(d1, d2.c);
    }
  }

  lemma UsedMeans(l: Local, db: Db, c: Setting, r: GuardedRef)
    requires InUse(l, db, c, r)
    ensures r.DeckRef? || (r.NotetypeRef? && r.notetypeId in ComparedNotetypes(l, {}, FullManifest(db, c), db.records))
  {
  }

  // ------------------------------------------------------------------------- at rest --

  /** No tombstone counts and no card is superseded: the pass works on the collection as it is. */
  ghost predicate NothingToClean(l: Local, db: Db, s: Snapshot) {
    TombstonesForSnapshot(db.tombstones.Keys, s, None) == {} && Duplicates.SupersededCards(l, {}) == {}
  }

  /** Every deck, compared notetype, note and card is to be skipped, and no listed card is missing. */
  ghost predicate PlansRest(l: Local, db: Db, c: Setting) {
    var m := FullManifest(db, c);
    && (forall r: GuardedRef :: InUse(l, db, c, r) ==>
        StructureSync.PlanFor(StructureSync.PairOf(l, db.records, r), StructureEnv(c, m, false), StructureSync.Scaffold(l, r)) == StructureSync.Skip)
    && (forall g :: g != "" ==> var p := NoteSync.PairOf(l.notes, db.records, g);
        NoteSync.WellTyped(p) && NoteSync.PlanOf(c.engine.nfc, p, NoteEnv(c, m)) == NoteSync.Skip)
    && (forall k: CardKey :: k.guid != "" ==> var p := CardSync.PairOf(l, db.cards, k);
        CardSync.PlanOf(c.engine.fold, p.local, CardSync.EntryOfPair(p), CardEnv(c, m, false), false) == CardSync.Skip)
  }

  /** What makes an unrouted pass idle: each of its phases finds nothing to do. */
  ghost predicate AtRest(l: Local, db: Db, s: Snapshot, c: Setting) {
    && NothingToClean(l, db, s) && DeletesToSend(s, None, LocalKeys(l, {}), {}, ViewKeys(db, None)) == {} && !Fresh(l, db, s, None)
    && PlansRest(l, db, c) && c.engine.generate(l) == map[]
    && l.revlog.Keys == db.reviews.Keys && (forall id :: !ReviewSync.Conflicting(l, db, id))
    && CountersCovered(l, db)
  }

  lemma SkippedIsComplete(l: Local, db: Db, c: Setting)
    requires PlansRest(l, db, c) && forall k :: k in db.cards ==> k.guid != ""
    ensures Complete(l, db)
  {
    hide FullManifest;
    forall g | g != "" && NoteRef(g) in db.records
      ensures HasNote(l, g)
    {
      var p := NoteSync.PairOf(l.notes, db.records, g);
      assert p.local.Some?;
      NamedIffHas(l, {}, g);
    }
    forall k: CardKey | k in db.cards
      ensures CardSync.CardNamed(l, k).Some?
    {
      var p := CardSync.PairOf(l, db.cards, k);
      assert p.local.Some?;
    }
  }

  lemma PlansAreAtRest(d1: Did, d2: Did, c: Setting)
    requires TwoCalm(d1, d2, c) && Complete(d2.l', d2.db')
    ensures PlansRest(d2.l', d2.db', c)
  {
    hide TwoCalm;
    hide Complete;
    hide InUse;
    hide FullManifest;
    hide Calm;
    hide *;
    TwoCalmMeans(d1, d2, c);
    CompleteBefore(d2);
    CompleteBefore(d1);
    var m := FullManifest(d2.db', c);
    forall r: GuardedRef | InUse(d2.l', d2.db', c, r)
      ensures StructureSync.PlanFor(StructureSync.PairOf(d2.l', d2.db'.records, r), StructureEnv(c, m, false), StructureSync.Scaffold(d2.l', r)) == StructureSync.Skip
    {
      StructureAtRest(d1, d2, c, r);
    }
    forall g | g != ""
      ensures var p := NoteSync.PairOf(d2.l'.notes, d2.db'.records, g);
        NoteSync.WellTyped(p) && NoteSync.PlanOf(c.engine.nfc, p, NoteEnv(c, m)) == NoteSync.Skip
    {
      NoteAtRest(d1, d2, c, g);
    }
    forall k: CardKey | k.guid != ""
      ensures var p := CardSync.PairOf(d2.l', d2.db'.cards, k);
        CardSync.PlanOf(c.engine.fold, p.local, CardSync.EntryOfPair(p), CardEnv(c, m, false), false) == CardSync.Skip
    {
      CardAtRest(d1, d2, c, k);
    }
    PlansFound(d2.l', d2.db', c);
  }

  lemma PlansFound(l: Local, db: Db, c: Setting)
    requires var m := FullManifest(db, c);
      && (forall r: GuardedRef :: InUse(l, db, c, r) ==>
          StructureSync.PlanFor(StructureSync.PairOf(l, db.records, r), StructureEnv(c, m, false), StructureSync.Scaffold(l, r)) == StructureSync.Skip)
      && (forall g :: g != "" ==> var p := NoteSync.PairOf(l.notes, db.records, g);
          NoteSync.WellTyped(p) && NoteSync.PlanOf(c.engine.nfc, p, NoteEnv(c, m)) == NoteSync.Skip)
      && (forall k: CardKey :: k.guid != "" ==> var p := CardSync.PairOf(l, db.cards, k);
          CardSync.PlanOf(c.engine.fold, p.local, CardSync.EntryOfPair(p), CardEnv(c, m, false), false) == CardSync.Skip)
    ensures PlansRest(l, db, c)
  {
  }

  /** What a pass remembers it also holds. */
  lemma NothingForgotten(l: Local, view: set<Ref>, view': set<Ref>)
    ensures DeletesToSend(BuildState(None, FinalKeys(l, {}, view)), None, LocalKeys(l, {}), {}, view') == {}
  {
    assert FinalKeys(l, {}, view) <= LocalKeys(l, {});
  }

  /**
   * Two calm passes of one client with no other writer are enough: at every later
   * clock, under either policy, the next pass has nothing to do in any phase, if and
   * only if the collection holds every note and card the server has, no tombstone
   * counts any more and no card is superseded, the client is not mistaken for a
   * fresh one, and Anki generates no card.
   */
  lemma TwoCalmPassesRestIff(d1: Did, d2: Did, c: Setting)
    requires TwoCalm(d1, d2, c)
    ensures AtRest(d2.l', d2.db', d2.s', c) <==>
      && Complete(d2.l', d2.db') && NothingToClean(d2.l', d2.db', d2.s') && !Fresh(d2.l', d2.db', d2.s', None)
      && c.engine.generate(d2.l') == map[]
  {
    hide TwoCalm;
    hide Complete;
    hide PlansRest;
    hide NothingToClean;
    hide Fresh;
    hide CountersCovered;
    hide ReviewSync.Conflicting;
    hide DeletesToSend;
    hide LocalKeys;
    hide ViewKeys;
    hide Calm;
    TwoCalmMeans(d1, d2, c);
    CalmMeans(d2);
    CalmReviews(d2);
    CalmCounters(d2);
    NothingForgotten(d2.l', ManifestKeys(d2.tr.manifest), ViewKeys(d2.db', None));
    NamedCards(d2);
    if PlansRest(d2.l', d2.db', c) {
      SkippedIsComplete(d2.l', d2.db', c);
    }
    if Complete(d2.l', d2.db') {
      PlansAreAtRest(d1, d2, c);
    }
  }

  lemma NamedCards(d: Did)
    requires Calm(d)
    ensures forall k :: k in d.db'.cards ==> k.guid != ""
  {
    hide Calm;
    CalmEnd(d);
  }
}
