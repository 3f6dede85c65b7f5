// The parts of a local Anki collection that synchronisation reads and writes.

module Anki {
  import opened Prelude

  datatype NoteRow = NoteRow(guid: string, mid: int, mod: nat, fields: seq<string>, tags: seq<string>)

  /** `deck` names the deck holding the card; a card of no known note has no identity. */
  datatype CardRow = CardRow(nid: int, ord: int, deck: string, mod: nat, scheduling: Scheduling)

  datatype RevlogRow = RevlogRow(cid: int, usn: int, body: ReviewBody)

  /** A daily counter is a pair of collection-relative day and amount. */
  datatype DayCount = DayCount(day: int, amount: int)

  datatype DeckRow = DeckRow(
    content: Content, mod: int, usn: int,
    newToday: Option<DayCount>, revToday: Option<DayCount>,
    lrnToday: Option<DayCount>, timeToday: Option<DayCount>)

  /** `fieldCount` is the number of fields a note of this type has. */
  datatype NotetypeRow = NotetypeRow(content: Content, mod: int, fieldCount: nat)

  /** `deckNames` resolves the deck ids that scheduling refers to. */
  datatype Local = Local(
    notes: map<int, NoteRow>, cards: map<int, CardRow>, revlog: map<int, RevlogRow>,
    decks: map<string, DeckRow>, notetypes: map<int, NotetypeRow>, crt: int, deckNames: map<int, string>)

  class Collection {
    var notes: map<int, NoteRow>
    var cards: map<int, CardRow>
    var revlog: map<int, RevlogRow>
    var decks: map<string, DeckRow>
    var notetypes: map<int, NotetypeRow>
    const crt: int
    const deckNames: map<int, string>

    function State(): Local
      reads this
    {
      Local(notes, cards, revlog, decks, notetypes, crt, deckNames)
    }

    constructor (l: Local)
      ensures State() == l
    {
      notes, cards, revlog, decks, notetypes := l.notes, l.cards, l.revlog, l.decks, l.notetypes;
      crt, deckNames := l.crt, l.deckNames;
    }
  }

  /** LEFT JOIN of a card with its note: the guid is blank when either is missing. */
  function Identity(l: Local, cid: int): CardKey {
    if cid !in l.cards then CardKey("", 0)
    else if l.cards[cid].nid !in l.notes then CardKey("", l.cards[cid].ord)
    else CardKey(l.notes[l.cards[cid].nid].guid, l.cards[cid].ord)
  }

  /** The deck itself or any of its subdecks. */
  predicate InDeck(deck: string, name: string) {
    deck == name || name + "::" <= deck
  }

  predicate InScope(deck: string, names: set<string>) {
    exists n <- names :: InDeck(deck, n)
  }

  /** Where a card belongs: while a filtered deck borrows it, its original deck. */
  function HomeDeck(l: Local, cid: int): string {
    if cid !in l.cards then ""
    else
      var odid := l.cards[cid].scheduling.odid;
      if odid == 0 then l.cards[cid].deck else if odid in l.deckNames then l.deckNames[odid] else ""
  }

  // -------------------------------------------------------------- selected decks --

  /** Local queries take an empty selection for no selection at all. */
  predicate InSelection(scope: set<string>, deck: string) {
    scope == {} || InScope(deck, scope)
  }

  /** The notes with a card in the selected decks. */
  function ScopedNotes(l: Local, scope: set<string>): map<int, NoteRow> {
    map n | n in l.notes && (scope == {} || exists c <- l.cards.Keys :: l.cards[c].nid == n && InScope(l.cards[c].deck, scope)) :: l.notes[n]
  }

  function ScopedCards(l: Local, scope: set<string>): map<int, CardRow> {
    map c | c in l.cards && InSelection(scope, l.cards[c].deck) :: l.cards[c]
  }

  lemma NoSelection(l: Local)
    ensures ScopedNotes(l, {}) == l.notes && ScopedCards(l, {}) == l.cards
  {
    forall c | c in l.cards ensures c in ScopedCards(l, {}) { assert InSelection({}, l.cards[c].deck); }
  }

  const SECONDS_PER_DAY := 86400

  /** Python's `//`: rounds towards minus infinity, as Dafny's `/` does here. */
  function DayOf(crt: int): int {
    crt / SECONDS_PER_DAY
  }
}
