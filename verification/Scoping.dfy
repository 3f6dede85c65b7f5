// Restricting a server manifest to selected decks (content_sync.py:
// _scope_server_manifest_to_decks), the fast way over manifest deck names and
// the legacy way over full card records.

module Scoping {
  import opened Prelude
  import opened Anki

  /** A stored card, as a batch pull returns it. */
  datatype CardRecord = CardRecord(guid: string, ord: int, deck: string, scheduling: Scheduling)

  /** A card of the manifest; scheduling and logical key are filled in while scoping. */
  datatype CardItem = CardItem(
    cardId: int, guid: string, ord: int, deck: string, scheduling: Option<Scheduling>, logicalKey: Option<CardKey>)

  datatype ReviewItem = ReviewItem(reviewId: int, deck: string)

  /** The other lists of a manifest. */
  datatype Lists = Lists(notes: seq<string>, decks: seq<string>, reviews: seq<ReviewItem>, studyDays: seq<StudyKey>)

  datatype Scoped = Scoped(cards: seq<CardItem>, lists: Lists)

  // --------------------------------------------------------------- what is meant --

  /** An entry of the manifest of `store`; older servers leave fields blank. */
  predicate Describes(store: map<int, CardRecord>, item: CardItem) {
    && item.cardId != 0 && item.cardId in store
    && var r := store[item.cardId];
    && item.guid in {"", r.guid} && item.ord in {0, r.ord} && item.deck in {"", r.deck}
    && item.scheduling.None? && item.logicalKey.None?
  }

  /** The entry with everything the store knows of the card. */
  function Complete(store: map<int, CardRecord>, item: CardItem): CardItem {
    if item.cardId !in store then item
    else
      var r := store[item.cardId];
      CardItem(item.cardId, r.guid, r.ord, r.deck, Some(r.scheduling), Some(CardKey(r.guid, r.ord)))
  }

  predicate CardInScope(store: map<int, CardRecord>, names: set<string>, id: int) {
    id in store && InScope(store[id].deck, names)
  }

  function CompleteAll(store: map<int, CardRecord>, items: seq<CardItem>): seq<CardItem> {
    seq(|items|, i requires 0 <= i < |items| => Complete(store, items[i]))
  }

  /** The notes of the cards in scope. */
  function NotesInScope(store: map<int, CardRecord>, names: set<string>, items: seq<CardItem>): set<string> {
    set m | m in items && CardInScope(store, names, m.cardId) && store[m.cardId].guid != "" :: store[m.cardId].guid
  }

  /** The scoped manifest, from the store alone. */
  function ScopedOf(store: map<int, CardRecord>, names: set<string>, items: seq<CardItem>, lists: Lists): Scoped {
    var notes := NotesInScope(store, names, items);
    Scoped(Filter(CompleteAll(store, items), (m: CardItem) => CardInScope(store, names, m.cardId)),
           Lists(Filter(lists.notes, g => g in notes), Filter(lists.decks, d => InScope(d, names)),
                 Filter(lists.reviews, (r: ReviewItem) => InScope(r.deck, names)),
                 Filter(lists.studyDays, (k: StudyKey) => InScope(k.deck, names))))
  }

  // ------------------------------------------------------------------ the method --

  const BATCH_SIZE := 3000

  function Enriched(m: CardItem, c: CardRecord): CardItem {
    var guid := if c.guid != "" then c.guid else m.guid;
    var ord := if c.ord != 0 then c.ord else m.ord;
    var deck := if c.deck != "" then c.deck else m.deck;
    CardItem(m.cardId, guid, ord, deck, Some(c.scheduling), Some(CardKey(guid, ord)))
  }

  lemma EnrichedIsComplete(store: map<int, CardRecord>, m: CardItem)
    requires Describes(store, m)
    ensures Enriched(m, store[m.cardId]) == Complete(store, m)
  {
  }

  /** batch_pull of one chunk, indexed by card id. */
  method Load(store: map<int, CardRecord>, ids: seq<int>) returns (byId: map<int, CardRecord>)
    ensures byId == map id | id in store && id in ids :: store[id]
  {
    byId := map[];
    for i := 0 to |ids|
      invariant byId == map id | id in store && id in ids[..i] :: store[id]
    {
      assert ids[..i + 1] == ids[..i] + [ids[i]];
      if ids[i] in store { byId := byId[ids[i] := store[ids[i]]]; }
    }
    assert ids[..|ids|] == ids;
  }

  /** Whether every card with an id names its deck. */
  method HasManifestDecks(cards: array<CardItem>) returns (all: bool)
    ensures all <==> forall i :: 0 <= i < cards.Length ==> cards[i].cardId == 0 || cards[i].deck != ""
  {
    for i := 0 to cards.Length
      invariant forall j :: 0 <= j < i ==> cards[j].cardId == 0 || cards[j].deck != ""
    {
      if cards[i].cardId != 0 && cards[i].deck == "" {
        return false;
      }
    }
    all := true;
  }

  /** A manifest entry that makes a card worth pulling. */
  predicate Selects(m: CardItem, names: set<string>, fast: bool) {
    m.cardId != 0 && (fast ==> InScope(m.deck, names))
  }

  function SelectedIds(items: seq<CardItem>, names: set<string>, fast: bool): set<int> {
    set m | m in items && Selects(m, names, fast) :: m.cardId
  }

  function SelectedGuids(items: seq<CardItem>, names: set<string>): set<string> {
    set m | m in items && Selects(m, names, true) && m.guid != "" :: m.guid
  }

  function ToSet(ids: seq<int>): set<int> {
    set id | id in ids
  }

  lemma SelectedGrow(items: seq<CardItem>, m: CardItem, names: set<string>, fast: bool)
    ensures SelectedIds(items + [m], names, fast) == SelectedIds(items, names, fast) + (if Selects(m, names, fast) then {m.cardId} else {})
    ensures SelectedGuids(items + [m], names)
         == SelectedGuids(items, names) + (if Selects(m, names, true) && m.guid != "" then {m.guid} else {})
  {
    hide InScope;
  }

  /** The card ids to pull, and what the manifest alone already puts in scope. */
  method SelectCards(cards: array<CardItem>, names: set<string>, fast: bool)
    returns (ids: seq<int>, scopedIds: set<int>, scopedGuids: set<string>)
    ensures ToSet(ids) == SelectedIds(cards[..], names, fast)
    ensures scopedIds == if fast then SelectedIds(cards[..], names, true) else {}
    ensures scopedGuids == if fast then SelectedGuids(cards[..], names) else {}
  {
    ids, scopedIds, scopedGuids := [], {}, {};
    for i := 0 to cards.Length
      invariant ToSet(ids) == SelectedIds(cards[..i], names, fast)
      invariant scopedIds == if fast then SelectedIds(cards[..i], names, true) else {}
      invariant scopedGuids == if fast then SelectedGuids(cards[..i], names) else {}
    {
      var card := cards[i];
      assert cards[..i + 1] == cards[..i] + [card];
      SelectedGrow(cards[..i], card, names, fast);
      SelectedGrow(cards[..i], card, names, true);
      assert ToSet(ids + [card.cardId]) == ToSet(ids) + {card.cardId};
      if card.cardId != 0 && (!fast || InScope(card.deck, names)) {
        ids := ids + [card.cardId];
        if fast {
          scopedIds := scopedIds + {card.cardId};
          if card.guid != "" { scopedGuids := scopedGuids + {card.guid}; }
        }
      }
    }
    assert cards[..cards.Length] == cards[..];
  }

  /** Entries of pulled cards are completed in place. */
  method Enrich(cards: array<CardItem>, byId: map<int, CardRecord>)
    modifies cards
    ensures forall i :: 0 <= i < cards.Length ==>
      cards[i] == if old(cards[i]).cardId in byId then Enriched(old(cards[i]), byId[old(cards[i]).cardId]) else old(cards[i])
  {
    for i := 0 to cards.Length
      invariant forall j :: i <= j < cards.Length ==> cards[j] == old(cards[j])
      invariant forall j :: 0 <= j < i ==>
        cards[j] == if old(cards[j]).cardId in byId then Enriched(old(cards[j]), byId[old(cards[j]).cardId]) else old(cards[j])
    {
      if cards[i].cardId in byId {
        cards[i] := Enriched(cards[i], byId[cards[i].cardId]);
      }
    }
  }

  /** An entry that says everything the record does, identity included. */
  predicate Shows(m: CardItem, id: int, r: CardRecord) {
    m == CardItem(id, r.guid, r.ord, r.deck, Some(r.scheduling), Some(CardKey(r.guid, r.ord)))
  }

  /** How far the in-place completion has come: exactly the pulled cards are complete. */
  ghost predicate CompletedFor(store: map<int, CardRecord>, was: seq<CardItem>, pulled: set<int>, now: seq<CardItem>) {
    && |now| == |was|
    && (forall i :: 0 <= i < |was| ==> was[i].cardId in store)
    && (forall i :: 0 <= i < |was| && was[i].cardId in pulled ==> Shows(now[i], was[i].cardId, store[was[i].cardId]))
    && (forall i :: 0 <= i < |was| && was[i].cardId !in pulled ==> now[i] == was[i])
  }

  lemma EnrichedAgain(store: map<int, CardRecord>, m: CardItem)
    requires m.cardId in store
    ensures Enriched(Complete(store, m), store[m.cardId]) == Complete(store, m)
  {
  }

  function IdsInScope(store: map<int, CardRecord>, names: set<string>, ids: set<int>): set<int> {
    set id | id in ids && CardInScope(store, names, id)
  }

  function GuidsInScope(store: map<int, CardRecord>, names: set<string>, ids: set<int>): set<string> {
    set id | id in ids && CardInScope(store, names, id) && store[id].guid != "" :: store[id].guid
  }

  /** Reading ids and guids of the cards in scope off one pulled chunk. */
  method ScanChunk(store: map<int, CardRecord>, names: set<string>, byId: map<int, CardRecord>, ghost chunk: seq<int>)
    returns (ids: set<int>, guids: set<string>)
    requires byId == map id | id in store && id in chunk :: store[id]
    ensures ids == IdsInScope(store, names, ToSet(chunk)) && guids == GuidsInScope(store, names, ToSet(chunk))
  {
    ids := set id | id in byId && InScope(byId[id].deck, names);
    guids := set id | id in byId && InScope(byId[id].deck, names) && byId[id].guid != "" :: byId[id].guid;
    hide InScope;
    assert forall id :: id in byId && InScope(byId[id].deck, names) <==> id in ToSet(chunk) && CardInScope(store, names, id);
  }

  lemma ScopeGrows(store: map<int, CardRecord>, names: set<string>, a: set<int>, b: set<int>)
    ensures IdsInScope(store, names, a + b) == IdsInScope(store, names, a) + IdsInScope(store, names, b)
    ensures GuidsInScope(store, names, a + b) == GuidsInScope(store, names, a) + GuidsInScope(store, names, b)
  {
    hide CardInScope;
  }

  /** Pull the selected cards in batches, completing the manifest as they arrive. */
  method PullAndEnrich(store: map<int, CardRecord>, cards: array<CardItem>, ids: seq<int>, names: set<string>)
    returns (inScope: set<int>, guids: set<string>)
    requires forall m <- cards[..] :: Describes(store, m)
    modifies cards
    ensures CompletedFor(store, old(cards[..]), ToSet(ids), cards[..])
    ensures inScope == IdsInScope(store, names, ToSet(ids)) && guids == GuidsInScope(store, names, ToSet(ids))
  {
    ghost var was := cards[..];
    assert forall i :: 0 <= i < |was| ==> was[i] in was;
    inScope, guids := {}, {};
    var start := 0;
    assert CompletedFor(store, was, ToSet(ids[..0]), cards[..]);
    hide CompletedFor;
    hide Describes;
    hide CardInScope;
    hide Complete;
    while start < |ids|
      invariant 0 <= start <= |ids|
      invariant CompletedFor(store, was, ToSet(ids[..start]), cards[..])
      invariant inScope == IdsInScope(store, names, ToSet(ids[..start]))
      invariant guids == GuidsInScope(store, names, ToSet(ids[..start]))
    {
      var end := if start + BATCH_SIZE < |ids| then start + BATCH_SIZE else |ids|;
      var chunk := ids[start..end];
      var byId := Load(store, chunk);
      var moreIds, moreGuids := ScanChunk(store, names, byId, chunk);
      ScopeGrows(store, names, ToSet(ids[..start]), ToSet(chunk));
      assert ToSet(ids[..end]) == ToSet(ids[..start]) + ToSet(chunk) by { assert ids[..end] == ids[..start] + chunk; }
      inScope, guids := inScope + moreIds, guids + moreGuids;
      ghost var before := cards[..];
      Enrich(cards, byId);
      ChunkCompletes(store, was, ToSet(ids[..start]), before, chunk, byId, cards[..]);
      start := end;
    }
    assert ids[..|ids|] == ids;
  }

  lemma ChunkCompletes(store: map<int, CardRecord>, was: seq<CardItem>, pulled: set<int>, before: seq<CardItem>,
                       chunk: seq<int>, byId: map<int, CardRecord>, after: seq<CardItem>)
    requires forall m <- was :: Describes(store, m)
    requires CompletedFor(store, was, pulled, before) && |after| == |before|
    requires byId == map id | id in store && id in chunk :: store[id]
    requires forall i :: 0 <= i < |after| ==>
      after[i] == if before[i].cardId in byId then Enriched(before[i], byId[before[i].cardId]) else before[i]
    ensures CompletedFor(store, was, pulled + ToSet(chunk), after)
  {
    forall i | 0 <= i < |was|
      ensures after[i] == if was[i].cardId in pulled + ToSet(chunk) then Complete(store, was[i]) else was[i]
    {
      assert was[i] in was;
      EnrichedIsComplete(store, was[i]);
      EnrichedAgain(store, was[i]);
    }
  }

  /** What either way of selecting leads to: the ids and guids of the cards in scope. */
  ghost predicate FoundScope(store: map<int, CardRecord>, names: set<string>, items: seq<CardItem>,
                             pulled: set<int>, ids: set<int>, guids: set<string>)
  {
    && (forall m <- items :: m.cardId in ids <==> CardInScope(store, names, m.cardId))
    && (forall m <- items :: CardInScope(store, names, m.cardId) ==> m.cardId in pulled)
    && guids == NotesInScope(store, names, items)
  }

  /** With deck names in the manifest, the selected cards are those in scope already. */
  lemma FastFindsScope(store: map<int, CardRecord>, names: set<string>, items: seq<CardItem>)
    requires forall m <- items :: Describes(store, m) && m.deck != ""
    ensures var pulled := SelectedIds(items, names, true);
      && FoundScope(store, names, items, pulled, pulled + IdsInScope(store, names, pulled),
                    SelectedGuids(items, names) + GuidsInScope(store, names, pulled))
      && forall id :: id in pulled ==> CardInScope(store, names, id)
  {
    hide InScope;
    forall m | m in items
      ensures Selects(m, names, true) <==> CardInScope(store, names, m.cardId)
    {
      assert m.deck == store[m.cardId].deck;
    }
    FastGuids(store, names, items);
  }

  lemma FastGuids(store: map<int, CardRecord>, names: set<string>, items: seq<CardItem>)
    requires forall m <- items :: Describes(store, m) && (Selects(m, names, true) <==> CardInScope(store, names, m.cardId))
    ensures SelectedGuids(items, names) + GuidsInScope(store, names, SelectedIds(items, names, true)) == NotesInScope(store, names, items)
  {
    hide Selects;
    hide CardInScope;
  }

  /** Without them every card is pulled, and the records tell. */
  lemma LegacyFindsScope(store: map<int, CardRecord>, names: set<string>, items: seq<CardItem>)
    requires forall m <- items :: Describes(store, m)
    ensures var pulled := SelectedIds(items, names, false);
      FoundScope(store, names, items, pulled, IdsInScope(store, names, pulled), GuidsInScope(store, names, pulled))
  {
    hide CardInScope;
  }

  /** Once scope is found, filtering yields the meaning of the manifest. */
  lemma FoundScopeDecides(store: map<int, CardRecord>, names: set<string>, items: seq<CardItem>, pulled: set<int>,
                          ids: set<int>, guids: set<string>, now: seq<CardItem>, lists: Lists)
    requires forall m <- items :: Describes(store, m)
    requires FoundScope(store, names, items, pulled, ids, guids) && CompletedFor(store, items, pulled, now)
    ensures Filter(now, (m: CardItem) => m.cardId in ids) == ScopedOf(store, names, items, lists).cards
    ensures Filter(lists.notes, g => g in guids) == ScopedOf(store, names, items, lists).lists.notes
  {
    var complete := CompleteAll(store, items);
    forall i | 0 <= i < |items|
      ensures now[i].cardId in ids <==> CardInScope(store, names, complete[i].cardId)
      ensures now[i].cardId in ids ==> now[i] == complete[i]
    {
      assert items[i] in items;
    }
    FilterSame(now, complete, (m: CardItem) => m.cardId in ids, (m: CardItem) => CardInScope(store, names, m.cardId));
    var notes := NotesInScope(store, names, items);
    FilterSame(lists.notes, lists.notes, g => g in guids, g => g in notes);
  }

  /**
   * Both ways give the same scoped manifest, namely the one the card store alone
   * determines; when every entry names its deck, only cards in scope are pulled.
   */
  method ScopeManifest(store: map<int, CardRecord>, cards: array<CardItem>, lists: Lists, names: set<string>)
    returns (scoped: Scoped, ghost pulled: set<int>)
    requires forall m <- cards[..] :: Describes(store, m)
    modifies cards
    ensures scoped == ScopedOf(store, names, old(cards[..]), lists)
    ensures (forall m <- old(cards[..]) :: m.deck != "") ==> forall id :: id in pulled ==> CardInScope(store, names, id)
    ensures CompletedFor(store, old(cards[..]), pulled, cards[..])
  {
    ghost var was := cards[..];
    var fast := HasManifestDecks(cards);
    var ids, scopedIds, scopedGuids := SelectCards(cards, names, fast);
    pulled := ToSet(ids);
    forall i | 0 <= i < cards.Length ensures cards[i] in was { assert was[i] == cards[i]; }
    if fast {
      FastFindsScope(store, names, was);
    } else {
      LegacyFindsScope(store, names, was);
    }
    var moreIds, moreGuids := PullAndEnrich(store, cards, ids, names);
    scopedIds, scopedGuids := scopedIds + moreIds, scopedGuids + moreGuids;
    FoundScopeDecides(store, names, was, pulled, scopedIds, scopedGuids, cards[..], lists);
    hide FoundScope;
    scoped := Scoped(
      Filter(cards[..], (m: CardItem) => m.cardId in scopedIds),
      Lists(Filter(lists.notes, g => g in scopedGuids), Filter(lists.decks, d => InScope(d, names)),
            Filter(lists.reviews, (r: ReviewItem) => InScope(r.deck, names)),
            Filter(lists.studyDays, (k: StudyKey) => InScope(k.deck, names))));
  }

  /**
   * Fast scoping agrees with the full scan: two manifests of the same cards, one
   * with deck names and one stripped of them, have the same meaning.
   */
  lemma StrippingChangesNothing(store: map<int, CardRecord>, names: set<string>, named: seq<CardItem>, stripped: seq<CardItem>, lists: Lists)
    requires forall m <- named + stripped :: Describes(store, m)
    requires |named| == |stripped| && forall i :: 0 <= i < |named| ==> named[i].cardId == stripped[i].cardId
    ensures ScopedOf(store, names, named, lists) == ScopedOf(store, names, stripped, lists)
  {
    assert forall m <- named :: m in named + stripped;
    assert forall m <- stripped :: m in named + stripped;
    hide CardInScope;
    forall i | 0 <= i < |named|
      ensures named[i] in named && stripped[i] in stripped
      ensures Complete(store, named[i]) == Complete(store, stripped[i])
    {
      assert named[i] in named;
      assert Describes(store, named[i]);
    }
    assert CompleteAll(store, named) == CompleteAll(store, stripped);
    assert NotesInScope(store, names, named) == NotesInScope(store, names, stripped);
  }

  /** The scoped decks are exactly the listed ones equal to or below a selected name. */
  lemma ScopedDecksAreSubtrees(store: map<int, CardRecord>, names: set<string>, items: seq<CardItem>, lists: Lists, d: string)
    requires forall m <- items :: Describes(store, m)
    ensures d in ScopedOf(store, names, items, lists).lists.decks
       <==> d in lists.decks && exists n <- names :: d == n || n + "::" <= d
  {
    hide CardInScope;
    assert InScope(d, names) <==> exists n <- names :: InDeck(d, n);
  }
}
