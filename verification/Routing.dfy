// The manifest a pass over selected decks works with: the server's, restricted by
// Scoping (content_sync.py: _scope_server_manifest_to_decks).

module Routing {
  import opened Prelude
  import opened ServerSpec
  import opened Anki
  import opened Server
  import CardSync
  import Scoping

  predicate CardRouted(m: Manifest, names: set<string>, k: CardKey) {
    k in m.cards && m.cards[k].cardId != 0 && InScope(m.cards[k].deck, names)
  }

  predicate NoteRouted(m: Manifest, names: set<string>, guid: string) {
    guid != "" && exists k <- m.cards.Keys :: k.guid == guid && CardRouted(m, names, k)
  }

  /** Notes follow their cards, decks their names; notetypes are not restricted here. */
  predicate RefRouted(m: Manifest, names: set<string>, r: GuardedRef) {
    r in m.records && (r.NoteRef? ==> NoteRouted(m, names, r.guid)) && (r.DeckRef? ==> InScope(r.name, names))
  }

  /** What is left of a manifest under some routes; None is no restriction. */
  function Routed(m: Manifest, names: Option<set<string>>): Manifest {
    if names.None? then m
    else
      m.(records := map r | r in m.records && RefRouted(m, names.value, r) :: m.records[r],
         cards := map k | k in m.cards && CardRouted(m, names.value, k) :: m.cards[k],
         reviews := map i | i in m.reviews && InScope(m.reviews[i].deck, names.value) :: m.reviews[i],
         studyDays := map k | k in m.studyDays && InScope(k.deck, names.value) :: m.studyDays[k])
  }

  /** A card of this note, with an id, is in one of the decks. */
  ghost predicate HasCardIn(db: Db, names: set<string>, guid: string) {
    guid != "" && exists k :: k in db.cards && k.guid == guid && db.cards[k].cardId != 0 && InScope(db.cards[k].deck, names)
  }

  /** What the routes leave of the server: cards, decks, reviews and study days of these decks, the notes of such cards, all notetypes. */
  lemma RoutedFromServer(db: Db, names: set<string>, now: int)
    ensures var m := Routed(ManifestOf(db, None, now), Some(names));
      && (forall k: CardKey :: k in m.cards <==> k in db.cards && db.cards[k].cardId != 0 && InScope(db.cards[k].deck, names))
      && (forall r: GuardedRef :: r in m.records <==>
            r in db.records && (r.NoteRef? ==> HasCardIn(db, names, r.guid)) && (r.DeckRef? ==> InScope(r.name, names)))
      && (forall i :: i in m.reviews <==> i in db.reviews && InScope(db.reviews[i].value.deck, names))
      && (forall k: StudyKey :: k in m.studyDays <==> k in db.studyDays && InScope(k.deck, names))
      && m.tombstones.Keys == db.tombstones.Keys && m.serverTime == now
  {
    var full := ManifestOf(db, None, now);
    ManifestTells(db, None, now);
    assert full.tombstones.Keys == db.tombstones.Keys by { forall r ensures r in full.tombstones <==> r in db.tombstones { } }
    hide ManifestOf;
    hide InScope;
    forall g
      ensures NoteRouted(full, names, g) <==> HasCardIn(db, names, g)
    {
      if HasCardIn(db, names, g) {
        var k :| k in db.cards && k.guid == g && db.cards[k].cardId != 0 && InScope(db.cards[k].deck, names);
        assert CardRouted(full, names, k);
      }
    }
    hide NoteRouted;
  }

  // ------------------------------------------------------- from the list form back --

  /** What batch pulls of cards answer. */
  function StoreOf(cards: map<CardKey, Card>): map<int, Scoping.CardRecord>
    requires CardSync.UniqueIds(cards)
  {
    map k | k in cards && cards[k].cardId != 0 :: cards[k].cardId := Scoping.CardRecord(k.guid, k.ord, cards[k].deck, cards[k].scheduling)
  }

  function ItemOf(k: CardKey, e: CardEntry): Scoping.CardItem {
    Scoping.CardItem(e.cardId, k.guid, k.ord, e.deck, None, None)
  }

  /** The card list of a manifest. */
  ghost predicate ListsCards(items: seq<Scoping.CardItem>, cards: map<CardKey, CardEntry>) {
    && (forall k :: k in cards && cards[k].cardId != 0 ==> ItemOf(k, cards[k]) in items)
    && (forall x <- items :: exists k :: k in cards && cards[k].cardId != 0 && x == ItemOf(k, cards[k]))
  }

  method CardItems(cards: map<CardKey, CardEntry>) returns (items: seq<Scoping.CardItem>)
    ensures ListsCards(items, cards)
  {
    items := [];
    var rest := cards.Keys;
    while rest != {}
      invariant rest <= cards.Keys
      invariant forall k :: k in cards && k !in rest && cards[k].cardId != 0 ==> ItemOf(k, cards[k]) in items
      invariant forall x <- items :: exists k :: k in cards && cards[k].cardId != 0 && x == ItemOf(k, cards[k])
      decreases rest
    {
      var k := Pick(rest);
      rest := rest - {k};
      if cards[k].cardId != 0 {
        items := items + [ItemOf(k, cards[k])];
      }
    }
  }

  lemma ItemsAreDescribed(cards: map<CardKey, Card>, remote: map<CardKey, CardEntry>, items: seq<Scoping.CardItem>)
    requires CardSync.UniqueIds(cards) && ListsCards(items, remote) && CardSync.CardsListed(remote, cards)
    ensures forall x <- items :: Scoping.Describes(StoreOf(cards), x)
  {
    forall x | x in items
      ensures Scoping.Describes(StoreOf(cards), x)
    {
      var k :| k in remote && remote[k].cardId != 0 && x == ItemOf(k, remote[k]);
      assert cards[k].cardId in StoreOf(cards);
    }
  }

  /** A card is in scope by its record exactly if it is by its manifest entry. */
  lemma StoreDecides(cards: map<CardKey, Card>, remote: map<CardKey, CardEntry>, names: set<string>, k: CardKey)
    requires CardSync.UniqueIds(cards) && CardSync.CardsListed(remote, cards) && k in remote && remote[k].cardId != 0
    ensures remote[k].cardId in StoreOf(cards) && StoreOf(cards)[remote[k].cardId].guid == k.guid
    ensures Scoping.CardInScope(StoreOf(cards), names, remote[k].cardId) <==> InScope(remote[k].deck, names)
  {
    hide InScope;
  }

  function IdsOf(items: seq<Scoping.CardItem>): set<int> {
    set x | x in items :: x.cardId
  }

  lemma RoutedIsScoped(cards: map<CardKey, Card>, m: Manifest, names: set<string>, items: seq<Scoping.CardItem>, lists: Scoping.Lists, k: CardKey)
    requires CardSync.UniqueIds(cards) && CardSync.CardsListed(m.cards, cards) && ListsCards(items, m.cards)
    requires CardRouted(m, names, k)
    ensures m.cards[k].cardId in IdsOf(Scoping.ScopedOf(StoreOf(cards), names, items, lists).cards)
  {
    var store := StoreOf(cards);
    var complete := Scoping.CompleteAll(store, items);
    StoreDecides(cards, m.cards, names, k);
    var i :| 0 <= i < |items| && items[i] == ItemOf(k, m.cards[k]);
    hide StoreOf;
    hide CardRouted;
    hide ListsCards;
    assert complete[i] in complete && complete[i].cardId == m.cards[k].cardId;
    assert complete[i] in Scoping.ScopedOf(store, names, items, lists).cards;
  }

  lemma ScopedIsRouted(cards: map<CardKey, Card>, m: Manifest, names: set<string>, items: seq<Scoping.CardItem>, lists: Scoping.Lists, k: CardKey)
    requires CardSync.UniqueIds(cards) && CardSync.CardsListed(m.cards, cards) && ListsCards(items, m.cards) && k in m.cards
    requires m.cards[k].cardId in IdsOf(Scoping.ScopedOf(StoreOf(cards), names, items, lists).cards)
    ensures CardRouted(m, names, k)
  {
    var store := StoreOf(cards);
    var complete := Scoping.CompleteAll(store, items);
    var x :| x in Scoping.ScopedOf(store, names, items, lists).cards && x.cardId == m.cards[k].cardId;
    var i :| 0 <= i < |complete| && complete[i] == x;
    hide Scoping.ScopedOf;
    assert items[i] in items;
    var k' :| k' in m.cards && m.cards[k'].cardId != 0 && items[i] == ItemOf(k', m.cards[k']);
    assert k' == k;
    StoreDecides(cards, m.cards, names, k);
  }

  /** The ids in the scoped list are those of the routed cards. */
  lemma ScopedCards(cards: map<CardKey, Card>, m: Manifest, names: set<string>, items: seq<Scoping.CardItem>, lists: Scoping.Lists)
    requires CardSync.UniqueIds(cards) && CardSync.CardsListed(m.cards, cards) && ListsCards(items, m.cards)
    ensures forall k :: k in m.cards ==> (m.cards[k].cardId in IdsOf(Scoping.ScopedOf(StoreOf(cards), names, items, lists).cards) <==> CardRouted(m, names, k))
  {
    hide *;
    forall k | k in m.cards
      ensures m.cards[k].cardId in IdsOf(Scoping.ScopedOf(StoreOf(cards), names, items, lists).cards) <==> CardRouted(m, names, k)
    {
      if CardRouted(m, names, k) { RoutedIsScoped(cards, m, names, items, lists, k); }
      if m.cards[k].cardId in IdsOf(Scoping.ScopedOf(StoreOf(cards), names, items, lists).cards) {
        ScopedIsRouted(cards, m, names, items, lists, k);
      }
    }
  }

  lemma ScopedGuids(cards: map<CardKey, Card>, m: Manifest, names: set<string>, items: seq<Scoping.CardItem>, g: string)
    requires CardSync.UniqueIds(cards) && CardSync.CardsListed(m.cards, cards) && ListsCards(items, m.cards)
    ensures g in Scoping.NotesInScope(StoreOf(cards), names, items)
       <==> NoteRouted(m, names, g)
  {
    var store := StoreOf(cards);
    if g in Scoping.NotesInScope(store, names, items) {
      var x :| x in items && Scoping.CardInScope(store, names, x.cardId) && store[x.cardId].guid == g;
      var k :| k in m.cards && m.cards[k].cardId != 0 && x == ItemOf(k, m.cards[k]);
      StoreDecides(cards, m.cards, names, k);
      assert CardRouted(m, names, k);
    }
    if k :| k in m.cards.Keys && k.guid == g && CardRouted(m, names, k) {
      StoreDecides(cards, m.cards, names, k);
      assert ItemOf(k, m.cards[k]) in items;
    }
  }

  /** The other lists of a manifest. */
  ghost predicate ListsRest(lists: Scoping.Lists, m: Manifest) {
    && (forall g :: g in lists.notes <==> NoteRef(g) in m.records)
    && (forall d :: d in lists.decks <==> DeckRef(d) in m.records)
    && (forall x :: x in lists.reviews <==> x.reviewId in m.reviews && x.deck == m.reviews[x.reviewId].deck)
    && (forall k :: k in lists.studyDays <==> k in m.studyDays)
  }

  method OtherLists(m: Manifest) returns (lists: Scoping.Lists)
    ensures ListsRest(lists, m)
  {
    var notes := ListOf(set r | r in m.records && r.NoteRef? :: r.guid);
    var decks := ListOf(set r | r in m.records && r.DeckRef? :: r.name);
    var reviews := ListOf(set i | i in m.reviews :: Scoping.ReviewItem(i, m.reviews[i].deck));
    var days := ListOf(m.studyDays.Keys);
    lists := Scoping.Lists(notes, decks, reviews, days);
    forall g ensures g in notes <==> NoteRef(g) in m.records {
      assert NoteRef(g) in m.records ==> NoteRef(g).guid in (set r | r in m.records && r.NoteRef? :: r.guid);
    }
    forall d ensures d in decks <==> DeckRef(d) in m.records {
      assert DeckRef(d) in m.records ==> DeckRef(d).name in (set r | r in m.records && r.DeckRef? :: r.name);
    }
  }

  /** The entries a scoped manifest keeps. */
  function Kept(m: Manifest, s: Scoping.Scoped): Manifest {
    var ids := IdsOf(s.cards);
    m.(records := map r | r in m.records && (r.NoteRef? ==> r.guid in s.lists.notes) && (r.DeckRef? ==> r.name in s.lists.decks) :: m.records[r],
       cards := map k | k in m.cards && m.cards[k].cardId in ids :: m.cards[k],
       reviews := map i | i in m.reviews && Scoping.ReviewItem(i, m.reviews[i].deck) in s.lists.reviews :: m.reviews[i],
       studyDays := map k | k in m.studyDays && k in s.lists.studyDays :: m.studyDays[k])
  }

  lemma KeptIsRouted(cards: map<CardKey, Card>, m: Manifest, names: set<string>, items: seq<Scoping.CardItem>, lists: Scoping.Lists)
    requires CardSync.UniqueIds(cards) && CardSync.CardsListed(m.cards, cards) && ListsCards(items, m.cards) && ListsRest(lists, m)
    ensures Kept(m, Scoping.ScopedOf(StoreOf(cards), names, items, lists)) == Routed(m, Some(names))
  {
    ScopedCards(cards, m, names, items, lists);
    forall g
      ensures g in Scoping.NotesInScope(StoreOf(cards), names, items) <==> NoteRouted(m, names, g)
    {
      ScopedGuids(cards, m, names, items, g);
    }
    ListsKept(StoreOf(cards), m, names, items, lists);
    KeepsWhatIsRouted(m, names, lists, Scoping.ScopedOf(StoreOf(cards), names, items, lists));
  }

  lemma KeepsWhatIsRouted(m: Manifest, names: set<string>, lists: Scoping.Lists, s: Scoping.Scoped)
    requires ListsRest(lists, m)
    requires forall k :: k in m.cards ==> (m.cards[k].cardId in IdsOf(s.cards) <==> CardRouted(m, names, k))
    requires forall g :: g in s.lists.notes <==> g in lists.notes && NoteRouted(m, names, g)
    requires forall d :: d in s.lists.decks <==> d in lists.decks && InScope(d, names)
    requires forall x :: x in s.lists.reviews <==> x in lists.reviews && InScope(x.deck, names)
    requires forall k :: k in s.lists.studyDays <==> k in lists.studyDays && InScope(k.deck, names)
    ensures Kept(m, s) == Routed(m, Some(names))
  {
    hide NoteRouted;
    hide InScope;
    hide IdsOf;
    var kept, routed := Kept(m, s), Routed(m, Some(names));
    RecordsKept(m, names, lists, s);
    assert kept.cards == routed.cards;
    assert kept.reviews == routed.reviews;
    assert kept.studyDays == routed.studyDays;
  }

  lemma RecordsKept(m: Manifest, names: set<string>, lists: Scoping.Lists, s: Scoping.Scoped)
    requires ListsRest(lists, m)
    requires forall g :: g in s.lists.notes <==> g in lists.notes && NoteRouted(m, names, g)
    requires forall d :: d in s.lists.decks <==> d in lists.decks && InScope(d, names)
    ensures Kept(m, s).records == Routed(m, Some(names)).records
  {
    hide NoteRouted;
    hide InScope;
    hide IdsOf;
    forall r: GuardedRef | r in m.records
      ensures (r.NoteRef? ==> r.guid in s.lists.notes) && (r.DeckRef? ==> r.name in s.lists.decks) <==> RefRouted(m, names, r)
    {
      if r.NoteRef? { assert r == NoteRef(r.guid); }
      if r.DeckRef? { assert r == DeckRef(r.name); }
    }
  }

  /** Membership in the filtered lists. */
  lemma ListsKept(store: map<int, Scoping.CardRecord>, m: Manifest, names: set<string>, items: seq<Scoping.CardItem>, lists: Scoping.Lists)
    ensures var s := Scoping.ScopedOf(store, names, items, lists).lists;
      && (forall g :: g in s.notes <==> g in lists.notes && g in Scoping.NotesInScope(store, names, items))
      && (forall d :: d in s.decks <==> d in lists.decks && InScope(d, names))
      && (forall x :: x in s.reviews <==> x in lists.reviews && InScope(x.deck, names))
      && (forall k :: k in s.studyDays <==> k in lists.studyDays && InScope(k.deck, names))
  {
    hide InScope;
    hide Scoping.NotesInScope;
  }

  /** The routed manifest as the client computes it, from lists and pulled records. */
  method RouteManifest(server: Handler, m: Manifest, names: Option<set<string>>) returns (routed: Manifest)
    requires (names.Some? ==> CardSync.UniqueIds(server.cards)) && CardSync.CardsListed(m.cards, server.cards)
    ensures routed == Routed(m, names)
  {
    if names.None? {
      return m;
    }
    var list := CardItems(m.cards);
    var lists := OtherLists(m);
    ItemsAreDescribed(server.cards, m.cards, list);
    hide *;
    var items := new Scoping.CardItem[|list|](i requires 0 <= i < |list| => list[i]);
    assert items[..] == list;
    var scoped, _ := Scoping.ScopeManifest(StoreOf(server.cards), items, lists, names.value);
    KeptIsRouted(server.cards, m, names.value, list, lists);
    routed := Kept(m, scoped);
    assert Some(names.value) == names;
  }
}
