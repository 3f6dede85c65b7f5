// Deletions in both directions: incoming tombstones, the scope-bound snapshot,
// detection of local deletes and their safety limits (tombstone_sync.py,
// sync_state.py, and the deletion half of content_sync.py).

module Deletes {
  import opened Prelude
  import opened ServerSpec
  import opened ServerRuns
  import opened Anki
  import opened Server
  import NoteSync

  // ------------------------------------------------------------------ snapshots --

  /** What the collection held after the last successful pass, and under which routes. */
  datatype Snapshot = Snapshot(version: int, scope: Option<set<string>>, known: set<Ref>)

  /** What a missing or unreadable state file loads as. */
  const EMPTY_SNAPSHOT := Snapshot(0, None, {})

  /** Unrouted passes and passes with no route at all share one scope. */
  function ScopeOf(names: Option<set<string>>): set<string> {
    if names.Some? then names.value else {}
  }

  predicate ScopeMatches(s: Snapshot, names: Option<set<string>>) {
    s.version == 2 && s.scope == Some(ScopeOf(names))
  }

  function BuildState(names: Option<set<string>>, keys: set<Ref>): Snapshot {
    Snapshot(2, Some(ScopeOf(names)), keys)
  }

  // ---------------------------------------------------------- incoming tombstones --

  /** Only tombstones of resources this very client knew under this very scope count. */
  function TombstonesForSnapshot(tombstones: set<Ref>, s: Snapshot, names: Option<set<string>>): set<Ref> {
    if ScopeMatches(s, names) then tombstones * s.known else {}
  }

  ghost predicate HasNote(l: Local, guid: string) {
    exists n :: n in l.notes && l.notes[n].guid == guid
  }

  predicate DeckEmpty(cards: map<int, CardRow>, deck: string) {
    forall c <- cards.Keys :: cards[c].deck != deck
  }

  predicate NotetypeUnused(notes: map<int, NoteRow>, mid: int) {
    forall n <- notes.Keys :: notes[n].mid != mid
  }

  // What Anki takes along when a card or a deck is removed (a note left without
  // cards, the decks below and their cards) is a function nothing is known of.

  /** Rows by their local ids. */
  datatype Taken = Taken(notes: set<int>, cards: set<int>, decks: set<string>)

  function Less(l: Local, t: Taken): Local {
    l.(notes := l.notes - t.notes, cards := l.cards - t.cards, decks := l.decks - t.decks)
  }

  /** A card named by a tombstone; one that is not there is skipped. */
  function CardStep(l: Local, r: Ref, cascade: (Local, Ref) -> Taken): Local {
    if r.CardRef? && r.cardId in l.cards then
      var l' := l.(cards := l.cards - {r.cardId});
      Less(l', cascade(l', r))
    else l
  }

  /** A deck named by a tombstone; one that still holds a card stays. */
  function DeckStep(l: Local, r: Ref, cascade: (Local, Ref) -> Taken): Local {
    if r.DeckRef? && DeckEmpty(l.cards, r.name) then
      var l' := l.(decks := l.decks - {r.name});
      Less(l', cascade(l', r))
    else l
  }

  function AfterCards(l: Local, q: seq<Ref>, cascade: (Local, Ref) -> Taken): Local {
    if |q| == 0 then l else CardStep(AfterCards(l, q[..|q| - 1], cascade), q[|q| - 1], cascade)
  }

  function AfterDecks(l: Local, q: seq<Ref>, cascade: (Local, Ref) -> Taken): Local {
    if |q| == 0 then l else DeckStep(AfterDecks(l, q[..|q| - 1], cascade), q[|q| - 1], cascade)
  }

  function AfterNotetypes(l: Local, ts: set<Ref>): Local {
    l.(notetypes := map m | m in l.notetypes && !(NotetypeRef(m) in ts && NotetypeUnused(l.notes, m)) :: l.notetypes[m])
  }

  function RefSet(rs: seq<Ref>): set<Ref> {
    set r | r in rs
  }

  function CardsOf(q: seq<Ref>): seq<Ref> {
    Filter(q, (r: Ref) => r.CardRef?)
  }

  function DecksOf(q: seq<Ref>): seq<Ref> {
    Filter(q, (r: Ref) => r.DeckRef?)
  }

  /** Notes first, then cards, then empty decks, then unused notetypes, each kind in the order listed. */
  function AfterContent(l: Local, q: seq<Ref>, cascade: (Local, Ref) -> Taken): Local {
    AfterCards(AfterNotes(l, NoteRefs(RefSet(q))), CardsOf(q), cascade)
  }

  function BeforeNotetypes(l: Local, q: seq<Ref>, cascade: (Local, Ref) -> Taken): Local {
    AfterDecks(AfterContent(l, q, cascade), DecksOf(q), cascade)
  }

  function AfterTombstones(l: Local, q: seq<Ref>, cascade: (Local, Ref) -> Taken): Local {
    AfterNotetypes(BeforeNotetypes(l, q, cascade), NotetypeRefs(RefSet(q)))
  }

  /** The tombstone at some place of the list found its card. */
  ghost predicate CardRecorded(l: Local, q: seq<Ref>, cascade: (Local, Ref) -> Taken, r: Ref) {
    exists i :: 0 <= i < |q| && q[i] == r && r.CardRef? && r.cardId in AfterCards(l, q[..i], cascade).cards
  }

  ghost predicate DeckRecorded(l: Local, q: seq<Ref>, cascade: (Local, Ref) -> Taken, r: Ref) {
    exists i :: 0 <= i < |q| && q[i] == r && r.DeckRef? && DeckEmpty(AfterDecks(l, q[..i], cascade).cards, r.name)
  }

  /** Whether the pass reports `r` as removed by the server; cards of removed notes included. */
  ghost predicate AppliedByServer(l: Local, q: seq<Ref>, cascade: (Local, Ref) -> Taken, r: Ref) {
    match r
    case NoteRef(g) => r in q && HasNote(l, g)
    case CardRef(c) =>
      || (c in l.cards && ChildOf(l, NoteRefs(RefSet(q)), c))
      || CardRecorded(AfterNotes(l, NoteRefs(RefSet(q))), CardsOf(q), cascade, r)
    case DeckRef(d) => DeckRecorded(AfterContent(l, q, cascade), DecksOf(q), cascade, r)
    case NotetypeRef(m) => r in q && m in l.notetypes && NotetypeUnused(BeforeNotetypes(l, q, cascade).notes, m)
  }

  /** delete_note, and the ids of the cards that go with it. */
  method DeleteNote(col: Collection, guid: string) returns (ok: bool, children: set<int>)
    requires guid != "" && NoteSync.DistinctGuids(col.notes)
    modifies col`notes, col`cards
    ensures ok <==> HasNote(old(col.State()), guid)
    ensures col.notes == map n | n in old(col.notes) && old(col.notes)[n].guid != guid :: old(col.notes)[n]
    ensures children == set c | c in old(col.cards) && old(col.cards)[c].nid in old(col.notes) && old(col.notes)[old(col.cards)[c].nid].guid == guid
    ensures col.cards == old(col.cards) - children
    ensures NoteSync.DistinctGuids(col.notes)
  {
    ghost var was := col.notes;
    children := set c | c in col.cards && col.cards[c].nid in col.notes && col.notes[col.cards[c].nid].guid == guid;
    var nid := NoteSync.FindNote(col.notes, guid);
    assert forall n :: n in col.notes && col.notes[n].guid == guid ==> NoteSync.HasGuid(col.notes, n, guid) && nid == Some(n);
    if nid.None? {
      assert forall n :: n in col.notes ==> col.notes[n].guid != guid;
      assert children == {};
      return false, children;
    }
    col.cards := map c | c in col.cards && col.cards[c].nid != nid.value :: col.cards[c];
    col.notes := col.notes - {nid.value};
    assert forall n :: n in col.notes <==> n in was && was[n].guid != guid;
    ok := true;
  }

  predicate ChildOf(l: Local, ts: set<Ref>, cid: int)
    requires cid in l.cards
  {
    l.cards[cid].nid in l.notes && NoteRef(l.notes[l.cards[cid].nid].guid) in ts
  }

  function NotesAfter(l: Local, ts: set<Ref>): map<int, NoteRow> {
    map n | n in l.notes && NoteRef(l.notes[n].guid) !in ts :: l.notes[n]
  }

  function AfterNotes(l: Local, ts: set<Ref>): Local {
    l.(notes := NotesAfter(l, ts), cards := map c | c in l.cards && !ChildOf(l, ts, c) :: l.cards[c])
  }

  ghost predicate NoteApplied(l: Local, ts: set<Ref>, r: Ref) {
    || (r.NoteRef? && r in ts && HasNote(l, r.guid))
    || (r.CardRef? && r.cardId in l.cards && ChildOf(l, ts, r.cardId))
  }

  lemma NoTombstones(l: Local)
    ensures AfterNotes(l, {}) == l && forall r :: !NoteApplied(l, {}, r)
  {
  }

  lemma NoteStep(l: Local, done: set<Ref>, guid: string, before: Local, children: set<int>, ok: bool, after: Local)
    requires before == AfterNotes(l, done) && NoteRef(guid) !in done
    requires ok <==> HasNote(before, guid)
    requires after.notes == map n | n in before.notes && before.notes[n].guid != guid :: before.notes[n]
    requires children == set c | c in before.cards && before.cards[c].nid in before.notes && before.notes[before.cards[c].nid].guid == guid
    requires after == before.(notes := after.notes, cards := before.cards - children)
    ensures after == AfterNotes(l, done + {NoteRef(guid)})
    ensures forall r :: NoteApplied(l, done + {NoteRef(guid)}, r) <==>
      NoteApplied(l, done, r) || (ok && (r == NoteRef(guid) || (r.CardRef? && r.cardId in children)))
  {
    var done' := done + {NoteRef(guid)};
    NoteChildren(l, done, guid, before, children);
    hide HasNote;
    assert after.cards == AfterNotes(l, done').cards;
    assert after.notes == NotesAfter(l, done');
    hide AfterNotes;
    hide NotesAfter;
    hide ChildOf;
    forall r
      ensures NoteApplied(l, done', r) <==>
        NoteApplied(l, done, r) || (ok && (r == NoteRef(guid) || (r.CardRef? && r.cardId in children)))
    {
    }
  }

  /** The cards that go with one more note, and whether there is such a note. */
  lemma NoteChildren(l: Local, done: set<Ref>, guid: string, before: Local, children: set<int>)
    requires before == AfterNotes(l, done) && NoteRef(guid) !in done
    requires children == set c | c in before.cards && before.cards[c].nid in before.notes && before.notes[before.cards[c].nid].guid == guid
    ensures HasNote(l, guid) <==> HasNote(before, guid)
    ensures children != {} ==> HasNote(before, guid)
    ensures forall c :: c in children ==> c in l.cards
    ensures forall c :: c in l.cards ==> (ChildOf(l, done + {NoteRef(guid)}, c) <==> ChildOf(l, done, c) || c in children)
  {
    if n :| n in l.notes && l.notes[n].guid == guid { assert n in before.notes; }
    if children != {} {
      var c := Member(children);
    }
  }

  /** The stretch of the ordered tombstones that names notes. */
  method ApplyNoteTombstones(col: Collection, ts: set<Ref>) returns (applied: set<Ref>)
    requires NoteSync.DistinctGuids(col.notes) && forall r <- ts :: r.NoteRef? && r.guid != ""
    modifies col`notes, col`cards
    ensures col.State() == AfterNotes(old(col.State()), ts)
    ensures forall r :: r in applied <==> NoteApplied(old(col.State()), ts, r)
  {
    ghost var l := col.State();
    applied := {};
    var rest := ts;
    NoTombstones(l);
    assert ts - rest == {};
    hide *;
    while rest != {}
      invariant rest <= ts && col.State() == AfterNotes(l, ts - rest) && NoteSync.DistinctGuids(col.notes)
      invariant forall r :: r in applied <==> NoteApplied(l, ts - rest, r)
      decreases rest
    {
      var r := Pick(rest);
      ghost var done, before := ts - rest, col.State();
      rest := rest - {r};
      assert ts - rest == done + {r};
      assert r == NoteRef(r.guid);
      var ok, children := DeleteNote(col, r.guid);
      NoteStep(l, done, r.guid, before, children, ok, col.State());
      if ok {
        applied := applied + {r} + set c | c in children :: CardRef(c);
      }
    }
    assert ts - rest == ts;
  }

  /** delete_card of each listed card, with what Anki takes along. */
  method ApplyCardTombstones(col: Collection, q: seq<Ref>, cascade: (Local, Ref) -> Taken) returns (applied: set<Ref>)
    requires forall r <- q :: r.CardRef?
    modifies col`notes, col`cards, col`decks
    ensures col.State() == AfterCards(old(col.State()), q, cascade)
    ensures forall r :: r in applied <==> CardRecorded(old(col.State()), q, cascade, r)
  {
    ghost var l := col.State();
    applied := {};
    for i := 0 to |q|
      invariant col.State() == AfterCards(l, q[..i], cascade)
      invariant forall r :: r in applied <==> CardRecorded(l, q[..i], cascade, r)
    {
      var r := q[i];
      assert r in q;
      assert q[..i + 1][..i] == q[..i];
      CardsRecorded(l, q, i, cascade);
      if r.cardId in col.cards {
        col.cards := col.cards - {r.cardId};
        TakeAlong(col, cascade(col.State(), r));
        applied := applied + {r};
      }
    }
    assert q[..|q|] == q;
  }

  /** The rows that go with a removed card or deck. */
  method TakeAlong(col: Collection, t: Taken)
    modifies col`notes, col`cards, col`decks
    ensures col.State() == Less(old(col.State()), t)
  {
    col.notes, col.cards, col.decks := col.notes - t.notes, col.cards - t.cards, col.decks - t.decks;
  }

  lemma CardsRecorded(l: Local, q: seq<Ref>, i: nat, cascade: (Local, Ref) -> Taken)
    requires i < |q|
    ensures forall r :: CardRecorded(l, q[..i + 1], cascade, r) <==>
      CardRecorded(l, q[..i], cascade, r) || (r == q[i] && r.CardRef? && r.cardId in AfterCards(l, q[..i], cascade).cards)
  {
    hide AfterCards;
    var p, p' := q[..i], q[..i + 1];
    assert forall j :: 0 <= j <= i ==> p'[..j] == q[..j];
    assert forall j :: 0 <= j <= i ==> p[..j] == q[..j];
    forall r
      ensures CardRecorded(l, p', cascade, r) <==>
        CardRecorded(l, p, cascade, r) || (r == q[i] && r.CardRef? && r.cardId in AfterCards(l, p, cascade).cards)
    {
      if CardRecorded(l, p, cascade, r) {
        var j :| 0 <= j < |p| && p[j] == r && r.CardRef? && r.cardId in AfterCards(l, p[..j], cascade).cards;
        assert p'[j] == r && r.cardId in AfterCards(l, p'[..j], cascade).cards;
      }
      if CardRecorded(l, p', cascade, r) {
        var j :| 0 <= j < |p'| && p'[j] == r && r.CardRef? && r.cardId in AfterCards(l, p'[..j], cascade).cards;
        assert j < i ==> p[j] == r && r.cardId in AfterCards(l, p[..j], cascade).cards;
      }
      if r == q[i] && r.CardRef? && r.cardId in AfterCards(l, p, cascade).cards {
        assert p'[i] == r && p'[..i] == p;
      }
    }
  }

  /** delete_deck of each listed deck: one that still holds a card is kept, as an error; a missing one counts as removed. */
  method ApplyDeckTombstones(col: Collection, q: seq<Ref>, cascade: (Local, Ref) -> Taken) returns (applied: set<Ref>)
    requires forall r <- q :: r.DeckRef?
    modifies col`notes, col`cards, col`decks
    ensures col.State() == AfterDecks(old(col.State()), q, cascade)
    ensures forall r :: r in applied <==> DeckRecorded(old(col.State()), q, cascade, r)
    ensures forall r :: r in applied ==> r in q && r.DeckRef? && r.name !in col.decks && forall c :: c in col.cards ==> col.cards[c].deck != r.name
    ensures forall r :: r in q && (forall c :: c in old(col.cards) ==> old(col.cards)[c].deck != r.name) ==> r in applied
  {
    ghost var l := col.State();
    applied := {};
    for i := 0 to |q|
      invariant col.State() == AfterDecks(l, q[..i], cascade)
      invariant forall r :: r in applied <==> DeckRecorded(l, q[..i], cascade, r)
    {
      var r := q[i];
      assert r in q;
      assert q[..i + 1][..i] == q[..i];
      DecksRecorded(l, q, i, cascade);
      if DeckEmpty(col.cards, r.name) {
        col.decks := col.decks - {r.name};
        TakeAlong(col, cascade(col.State(), r));
        applied := applied + {r};
      }
    }
    assert q[..|q|] == q;
    forall r ensures r in applied ==> r in q && r.DeckRef? && r.name !in col.decks && forall c :: c in col.cards ==> col.cards[c].deck != r.name {
      if r in applied { RecordedDeckIsGone(l, q, cascade, r); }
    }
    forall r | r in q && forall c :: c in l.cards ==> l.cards[c].deck != r.name
      ensures r in applied
    {
      EmptyDeckGoes(l, q, cascade, r);
    }
  }

  /** A deck recorded as removed is not there any more, and no card is left in it. */
  lemma RecordedDeckIsGone(l: Local, q: seq<Ref>, cascade: (Local, Ref) -> Taken, r: Ref)
    requires DeckRecorded(l, q, cascade, r)
    ensures var l' := AfterDecks(l, q, cascade);
      r in q && r.DeckRef? && r.name !in l'.decks && forall c :: c in l'.cards ==> l'.cards[c].deck != r.name
  {
    hide AfterDecks;
    hide DeckEmpty;
    var i :| 0 <= i < |q| && q[i] == r && r.DeckRef? && DeckEmpty(AfterDecks(l, q[..i], cascade).cards, r.name);
    OneDeckGoes(l, q, i, cascade);
    DecksShrinkFrom(l, q, i + 1, cascade);
  }

  lemma OneDeckGoes(l: Local, q: seq<Ref>, i: nat, cascade: (Local, Ref) -> Taken)
    requires i < |q| && q[i].DeckRef? && DeckEmpty(AfterDecks(l, q[..i], cascade).cards, q[i].name)
    ensures var l' := AfterDecks(l, q[..i + 1], cascade);
      q[i].name !in l'.decks && forall c :: c in l'.cards ==> l'.cards[c].deck != q[i].name
  {
    assert q[..i + 1][..i] == q[..i];
  }

  /** From any point of the list on, decks and cards only go. */
  lemma {:induction false} DecksShrinkFrom(l: Local, q: seq<Ref>, n: nat, cascade: (Local, Ref) -> Taken)
    requires n <= |q|
    ensures Shrunk(AfterDecks(l, q[..n], cascade), AfterDecks(l, q, cascade))
  {
    if n == |q| {
      assert q[..n] == q;
    } else {
      assert q[..|q| - 1][..n] == q[..n];
      DecksShrinkFrom(l, q[..|q| - 1], n, cascade);
    }
  }

  lemma EmptyDeckGoes(l: Local, q: seq<Ref>, cascade: (Local, Ref) -> Taken, r: Ref)
    requires r in q && r.DeckRef? && forall c :: c in l.cards ==> l.cards[c].deck != r.name
    ensures DeckRecorded(l, q, cascade, r)
  {
    var i :| 0 <= i < |q| && q[i] == r;
    DecksShrink(l, q[..i], cascade);
    assert DeckEmpty(AfterDecks(l, q[..i], cascade).cards, r.name);
  }

  lemma DecksRecorded(l: Local, q: seq<Ref>, i: nat, cascade: (Local, Ref) -> Taken)
    requires i < |q|
    ensures forall r :: DeckRecorded(l, q[..i + 1], cascade, r) <==>
      DeckRecorded(l, q[..i], cascade, r) || (r == q[i] && r.DeckRef? && DeckEmpty(AfterDecks(l, q[..i], cascade).cards, r.name))
  {
    hide AfterDecks;
    hide DeckEmpty;
    var p, p' := q[..i], q[..i + 1];
    assert forall j :: 0 <= j <= i ==> p'[..j] == q[..j];
    assert forall j :: 0 <= j <= i ==> p[..j] == q[..j];
    forall r
      ensures DeckRecorded(l, p', cascade, r) <==>
        DeckRecorded(l, p, cascade, r) || (r == q[i] && r.DeckRef? && DeckEmpty(AfterDecks(l, p, cascade).cards, r.name))
    {
      if DeckRecorded(l, p, cascade, r) {
        var j :| 0 <= j < |p| && p[j] == r && r.DeckRef? && DeckEmpty(AfterDecks(l, p[..j], cascade).cards, r.name);
        assert p'[j] == r && DeckEmpty(AfterDecks(l, p'[..j], cascade).cards, r.name);
      }
      if DeckRecorded(l, p', cascade, r) {
        var j :| 0 <= j < |p'| && p'[j] == r && r.DeckRef? && DeckEmpty(AfterDecks(l, p'[..j], cascade).cards, r.name);
        assert j < i ==> p[j] == r && DeckEmpty(AfterDecks(l, p[..j], cascade).cards, r.name);
      }
      if r == q[i] && r.DeckRef? && DeckEmpty(AfterDecks(l, p, cascade).cards, r.name) {
        assert p'[i] == r && p'[..i] == p;
      }
    }
  }

  /** A notetype some note still uses is kept, as an error; a missing one is skipped. */
  method ApplyNotetypeTombstones(col: Collection, ts: set<Ref>) returns (applied: set<Ref>)
    requires forall r <- ts :: r.NotetypeRef?
    modifies col`notetypes
    ensures col.notetypes == map m | m in old(col.notetypes) && !(NotetypeRef(m) in ts && NotetypeUnused(col.notes, m)) :: old(col.notetypes)[m]
    ensures forall r :: r in applied <==> r in ts && r.notetypeId in old(col.notetypes) && NotetypeUnused(col.notes, r.notetypeId)
    ensures forall m :: m in old(col.notetypes) ==>
      (m in col.notetypes <==> NotetypeRef(m) !in ts || exists n :: n in col.notes && col.notes[n].mid == m)
  {
    applied := {};
    var rest := ts;
    ghost var was := col.notetypes;
    while rest != {}
      invariant rest <= ts
      invariant col.notetypes == map m | m in was && !(NotetypeRef(m) in ts - rest && NotetypeUnused(col.notes, m)) :: was[m]
      invariant forall r :: r in applied <==> r in ts - rest && r.notetypeId in was && NotetypeUnused(col.notes, r.notetypeId)
      decreases rest
    {
      var r := Pick(rest);
      rest := rest - {r};
      if r.notetypeId in col.notetypes {
        if NotetypeUnused(col.notes, r.notetypeId) {
          col.notetypes := col.notetypes - {r.notetypeId};
          applied := applied + {r};
        }
      }
    }
  }

  /** apply_tombstones: sorted by kind, so dependent resources go in the safest order. */
  method ApplyTombstones(col: Collection, q: seq<Ref>, cascade: (Local, Ref) -> Taken) returns (applied: set<Ref>)
    requires NoteSync.DistinctGuids(col.notes) && NoteRef("") !in q
    modifies col`notes, col`cards, col`decks, col`notetypes
    ensures col.State() == AfterTombstones(old(col.State()), q, cascade)
    ensures forall r :: r in applied <==> AppliedByServer(old(col.State()), q, cascade, r)
    ensures TombstonesReach(old(col.State()), q, cascade, col.State())
  {
    ghost var l := col.State();
    var ts := RefSet(q);
    Kinds(q);
    AllReached(l, q, cascade);
    hide *;
    var byNote := ApplyNoteTombstones(col, NoteRefs(ts));
    ghost var l1 := col.State();
    var byCard := ApplyCardTombstones(col, CardsOf(q), cascade);
    var byDeck := ApplyDeckTombstones(col, DecksOf(q), cascade);
    ghost var l3 := col.State();
    var byNotetype := ApplyNotetypeTombstones(col, NotetypeRefs(ts));
    applied := byNote + byCard + byDeck + byNotetype;
    KindsCompose(l, q, cascade, l1, l3, col.State(), byNote, byCard, byDeck, byNotetype);
  }

  function NoteRefs(ts: set<Ref>): set<Ref> {
    set r | r in ts && r.NoteRef?
  }

  function CardRefs(ts: set<Ref>): set<Ref> {
    set r | r in ts && r.CardRef?
  }

  function DeckRefs(ts: set<Ref>): set<Ref> {
    set r | r in ts && r.DeckRef?
  }

  function NotetypeRefs(ts: set<Ref>): set<Ref> {
    set r | r in ts && r.NotetypeRef?
  }

  lemma Kinds(q: seq<Ref>)
    requires NoteRef("") !in q
    ensures forall r <- NoteRefs(RefSet(q)) :: r.NoteRef? && r.guid != ""
    ensures forall r <- CardsOf(q) :: r.CardRef?
    ensures forall r <- DecksOf(q) :: r.DeckRef?
    ensures forall r <- NotetypeRefs(RefSet(q)) :: r.NotetypeRef?
  {
    forall r | r in NoteRefs(RefSet(q)) ensures r.guid != "" { assert r == NoteRef(r.guid); }
  }

  /** The four kinds together amount to the whole. */
  lemma KindsCompose(l: Local, q: seq<Ref>, cascade: (Local, Ref) -> Taken, l1: Local, l3: Local, l4: Local,
                     byNote: set<Ref>, byCard: set<Ref>, byDeck: set<Ref>, byNotetype: set<Ref>)
    requires l1 == AfterNotes(l, NoteRefs(RefSet(q))) && l3 == AfterDecks(AfterCards(l1, CardsOf(q), cascade), DecksOf(q), cascade)
    requires l4 == l3.(notetypes := l4.notetypes)
    requires l4.notetypes == map m | m in l3.notetypes && !(NotetypeRef(m) in NotetypeRefs(RefSet(q)) && NotetypeUnused(l3.notes, m)) :: l3.notetypes[m]
    requires forall r :: r in byNote <==> NoteApplied(l, NoteRefs(RefSet(q)), r)
    requires forall r :: r in byCard <==> CardRecorded(l1, CardsOf(q), cascade, r)
    requires forall r :: r in byDeck <==> DeckRecorded(AfterCards(l1, CardsOf(q), cascade), DecksOf(q), cascade, r)
    requires forall r :: r in byNotetype <==> r in NotetypeRefs(RefSet(q)) && r.notetypeId in l3.notetypes && NotetypeUnused(l3.notes, r.notetypeId)
    ensures l4 == AfterTombstones(l, q, cascade)
    ensures forall r :: r in byNote + byCard + byDeck + byNotetype <==> AppliedByServer(l, q, cascade, r)
  {
    OnlyRowsGo(l, q, cascade);
    hide AfterNotes;
    hide AfterCards;
    hide AfterDecks;
    hide NotetypeUnused;
    hide HasNote;
    hide ChildOf;
    hide CardsOf;
    hide DecksOf;
    assert forall r :: CardRecorded(l1, CardsOf(q), cascade, r) ==> r.CardRef?;
    assert forall r :: DeckRecorded(AfterCards(l1, CardsOf(q), cascade), DecksOf(q), cascade, r) ==> r.DeckRef?;
    hide CardRecorded;
    hide DeckRecorded;
    forall r
      ensures r in byNote + byCard + byDeck + byNotetype <==> AppliedByServer(l, q, cascade, r)
    {
      match r
      case NoteRef(g) =>
      case CardRef(c) =>
      case DeckRef(d) =>
      case NotetypeRef(m) =>
    }
  }

  // ------------------------------------------------------------ what is left of a row --

  /** Rows are removed and nothing else. */
  ghost predicate Shrunk(l: Local, l': Local) {
    && l' == l.(notes := l'.notes, cards := l'.cards, decks := l'.decks, notetypes := l'.notetypes)
    && (forall n :: n in l'.notes ==> n in l.notes && l'.notes[n] == l.notes[n])
    && (forall c :: c in l'.cards ==> c in l.cards && l'.cards[c] == l.cards[c])
    && (forall d :: d in l'.decks ==> d in l.decks && l'.decks[d] == l.decks[d])
    && (forall m :: m in l'.notetypes ==> m in l.notetypes && l'.notetypes[m] == l.notetypes[m])
  }

  lemma {:induction false} CardsShrink(l: Local, q: seq<Ref>, cascade: (Local, Ref) -> Taken)
    ensures Shrunk(l, AfterCards(l, q, cascade)) && AfterCards(l, q, cascade).notetypes == l.notetypes
  {
    if |q| > 0 {
      CardsShrink(l, q[..|q| - 1], cascade);
    }
  }

  lemma {:induction false} DecksShrink(l: Local, q: seq<Ref>, cascade: (Local, Ref) -> Taken)
    ensures Shrunk(l, AfterDecks(l, q, cascade)) && AfterDecks(l, q, cascade).notetypes == l.notetypes
  {
    if |q| > 0 {
      DecksShrink(l, q[..|q| - 1], cascade);
    }
  }

  lemma ShrunkTwice(l: Local, l1: Local, l2: Local)
    requires Shrunk(l, l1) && Shrunk(l1, l2)
    ensures Shrunk(l, l2)
  {
  }

  lemma NotesShrink(l: Local, ts: set<Ref>)
    ensures Shrunk(l, AfterNotes(l, ts)) && AfterNotes(l, ts).notetypes == l.notetypes
  {
    assert AfterNotes(l, ts).notes == NotesAfter(l, ts);
  }

  lemma OnlyRowsGo(l: Local, q: seq<Ref>, cascade: (Local, Ref) -> Taken)
    ensures Shrunk(l, AfterTombstones(l, q, cascade)) && Shrunk(l, AfterContent(l, q, cascade))
    ensures Shrunk(AfterNotes(l, NoteRefs(RefSet(q))), AfterTombstones(l, q, cascade))
    ensures BeforeNotetypes(l, q, cascade).notetypes == l.notetypes
  {
    var l1, l2, l3, l4 := AfterNotes(l, NoteRefs(RefSet(q))), AfterContent(l, q, cascade), BeforeNotetypes(l, q, cascade), AfterTombstones(l, q, cascade);
    NotesShrink(l, NoteRefs(RefSet(q)));
    CardsShrink(l1, CardsOf(q), cascade);
    DecksShrink(l2, DecksOf(q), cascade);
    assert Shrunk(l3, l4) by { hide NotetypeUnused; }
    hide *;
    ShrunkTwice(l, l1, l2);
    ShrunkTwice(l1, l2, l3);
    ShrunkTwice(l1, l3, l4);
    ShrunkTwice(l, l1, l4);
  }

  // ------------------------------------------------------ when the record is complete --

  /** The collection has this note or card. */
  ghost predicate HeldBy(l: Local, r: Ref) {
    (r.NoteRef? && HasNote(l, r.guid)) || (r.CardRef? && r.cardId in l.cards)
  }

  predicate IsIdentity(r: Ref) {
    (r.NoteRef? && r.guid != "") || r.CardRef?
  }

  /** The notes with a guid and the cards among the rows taken along. */
  function GoneWith(l: Local, t: Taken): set<Ref> {
    (set n | n in l.notes && n in t.notes && l.notes[n].guid != "" :: NoteRef(l.notes[n].guid)) +
    (set c | c in l.cards && c in t.cards :: CardRef(c))
  }

  function TakenByCards(l: Local, q: seq<Ref>, cascade: (Local, Ref) -> Taken): set<Ref> {
    if |q| == 0 then {}
    else
      var before, r := AfterCards(l, q[..|q| - 1], cascade), q[|q| - 1];
      TakenByCards(l, q[..|q| - 1], cascade) +
      if r.CardRef? && r.cardId in before.cards then
        var l' := before.(cards := before.cards - {r.cardId});
        GoneWith(l', cascade(l', r))
      else {}
  }

  function TakenByDecks(l: Local, q: seq<Ref>, cascade: (Local, Ref) -> Taken): set<Ref> {
    if |q| == 0 then {}
    else
      var before, r := AfterDecks(l, q[..|q| - 1], cascade), q[|q| - 1];
      TakenByDecks(l, q[..|q| - 1], cascade) +
      if r.DeckRef? && DeckEmpty(before.cards, r.name) then
        var l' := before.(decks := before.decks - {r.name});
        GoneWith(l', cascade(l', r))
      else {}
  }

  /** The notes and cards Anki took along while the tombstones were applied. */
  function TakenAlong(l: Local, q: seq<Ref>, cascade: (Local, Ref) -> Taken): set<Ref> {
    TakenByCards(AfterNotes(l, NoteRefs(RefSet(q))), CardsOf(q), cascade) + TakenByDecks(AfterContent(l, q, cascade), DecksOf(q), cascade)
  }

  lemma LessHolds(l: Local, t: Taken, r: Ref)
    requires NoteSync.DistinctGuids(l.notes) && IsIdentity(r)
    ensures HeldBy(Less(l, t), r) <==> HeldBy(l, r) && r !in GoneWith(l, t)
  {
    var l' := Less(l, t);
    if r.NoteRef? {
      if n :| n in l.notes && l.notes[n].guid == r.guid {
        if n !in t.notes { assert n in l'.notes; }
      }
      if n :| n in l'.notes && l'.notes[n].guid == r.guid { assert n in l.notes; }
    }
  }

  lemma ShrunkHolds(l: Local, l': Local, r: Ref)
    requires Shrunk(l, l')
    ensures HeldBy(l', r) ==> HeldBy(l, r)
    ensures NoteSync.DistinctGuids(l.notes) ==> NoteSync.DistinctGuids(l'.notes)
  {
    if r.NoteRef? {
      if n :| n in l'.notes && l'.notes[n].guid == r.guid { assert n in l.notes; }
    }
  }

  lemma {:induction false} CardsAccounted(l: Local, q: seq<Ref>, cascade: (Local, Ref) -> Taken, r: Ref)
    requires NoteSync.DistinctGuids(l.notes) && IsIdentity(r) && HeldBy(l, r)
    ensures !HeldBy(AfterCards(l, q, cascade), r) <==> CardRecorded(l, q, cascade, r) || r in TakenByCards(l, q, cascade)
    ensures !(CardRecorded(l, q, cascade, r) && r in TakenByCards(l, q, cascade))
  {
    if |q| > 0 {
      var n := |q| - 1;
      var before := AfterCards(l, q[..n], cascade);
      CardsAccounted(l, q[..n], cascade, r);
      CardsRecorded(l, q, n, cascade);
      assert q[..n + 1] == q;
      CardsShrink(l, q[..n], cascade);
      ShrunkHolds(l, before, r);
      if q[n].CardRef? && q[n].cardId in before.cards {
        var l' := before.(cards := before.cards - {q[n].cardId});
        assert HeldBy(l', r) <==> HeldBy(before, r) && r != q[n];
        LessHolds(l', cascade(l', q[n]), r);
        GoneWereHeld(l', cascade(l', q[n]), r);
      }
      hide CardRecorded;
      hide HeldBy;
      hide GoneWith;
    }
  }

  lemma GoneWereHeld(l: Local, t: Taken, r: Ref)
    ensures r in GoneWith(l, t) ==> HeldBy(l, r)
  {
  }

  lemma {:induction false} DecksAccounted(l: Local, q: seq<Ref>, cascade: (Local, Ref) -> Taken, r: Ref)
    requires NoteSync.DistinctGuids(l.notes) && IsIdentity(r)
    ensures HeldBy(l, r) && !HeldBy(AfterDecks(l, q, cascade), r) <==> r in TakenByDecks(l, q, cascade)
  {
    if |q| > 0 {
      var n := |q| - 1;
      var before := AfterDecks(l, q[..n], cascade);
      DecksAccounted(l, q[..n], cascade, r);
      DecksShrink(l, q[..n], cascade);
      ShrunkHolds(l, before, r);
      if q[n].DeckRef? && DeckEmpty(before.cards, q[n].name) {
        var l' := before.(decks := before.decks - {q[n].name});
        assert HeldBy(l', r) <==> HeldBy(before, r);
        LessHolds(l', cascade(l', q[n]), r);
        GoneWereHeld(l', cascade(l', q[n]), r);
      }
      hide HeldBy;
      hide GoneWith;
      hide DeckEmpty;
    }
  }

  lemma NotesAccounted(l: Local, ts: set<Ref>, r: Ref)
    requires IsIdentity(r) && forall t <- ts :: t.NoteRef?
    ensures HeldBy(l, r) && !HeldBy(AfterNotes(l, ts), r) <==> NoteApplied(l, ts, r)
  {
    var l' := AfterNotes(l, ts);
    if r.NoteRef? {
      if n :| n in l.notes && l.notes[n].guid == r.guid && NoteRef(r.guid) !in ts { assert n in l'.notes; }
      if n :| n in l'.notes && l'.notes[n].guid == r.guid { assert n in l.notes; }
    }
  }

  /**
   * Every note and card that is gone after the tombstones was either recorded as
   * removed by the server or taken along by Anki, and never both.
   */
  lemma GoneIsRecordedOrTaken(l: Local, q: seq<Ref>, cascade: (Local, Ref) -> Taken, r: Ref)
    requires NoteSync.DistinctGuids(l.notes) && IsIdentity(r)
    ensures HeldBy(l, r) && !HeldBy(AfterTombstones(l, q, cascade), r) <==>
      AppliedByServer(l, q, cascade, r) || r in TakenAlong(l, q, cascade)
    ensures !(AppliedByServer(l, q, cascade, r) && r in TakenAlong(l, q, cascade))
  {
    var ts := NoteRefs(RefSet(q));
    var l1, l2, l3 := AfterNotes(l, ts), AfterContent(l, q, cascade), BeforeNotetypes(l, q, cascade);
    KindOfNotes(q);
    NotesShrink(l, ts);
    LastHolds(l, q, cascade, r);
    AppliedMeans(l, q, cascade, r);
    hide *;
    NotesAccounted(l, ts, r);
    ShrunkHolds(l, l1, r);
    CardsShrink(l1, CardsOf(q), cascade);
    ShrunkHolds(l1, l2, r);
    DecksShrink(l2, DecksOf(q), cascade);
    ShrunkHolds(l2, l3, r);
    if HeldBy(l1, r) {
      CardsAccounted(l1, CardsOf(q), cascade, r);
    } else {
      NeverHeldNeverGone(l1, CardsOf(q), cascade, r);
    }
    DecksAccounted(l2, DecksOf(q), cascade, r);
  }

  lemma KindOfNotes(q: seq<Ref>)
    ensures forall t <- NoteRefs(RefSet(q)) :: t.NoteRef?
  {
  }

  /** Notetype tombstones touch no note or card; and what the steps are called. */
  lemma LastHolds(l: Local, q: seq<Ref>, cascade: (Local, Ref) -> Taken, r: Ref)
    ensures HeldBy(AfterTombstones(l, q, cascade), r) <==> HeldBy(BeforeNotetypes(l, q, cascade), r)
    ensures AfterContent(l, q, cascade) == AfterCards(AfterNotes(l, NoteRefs(RefSet(q))), CardsOf(q), cascade)
    ensures BeforeNotetypes(l, q, cascade) == AfterDecks(AfterContent(l, q, cascade), DecksOf(q), cascade)
    ensures TakenAlong(l, q, cascade)
         == TakenByCards(AfterNotes(l, NoteRefs(RefSet(q))), CardsOf(q), cascade) + TakenByDecks(AfterContent(l, q, cascade), DecksOf(q), cascade)
  {
    hide AfterCards;
    hide AfterDecks;
    hide AfterNotes;
  }

  lemma AppliedMeans(l: Local, q: seq<Ref>, cascade: (Local, Ref) -> Taken, r: Ref)
    requires IsIdentity(r)
    ensures var ts := NoteRefs(RefSet(q));
      AppliedByServer(l, q, cascade, r) <==> NoteApplied(l, ts, r) || CardRecorded(AfterNotes(l, ts), CardsOf(q), cascade, r)
  {
  }

  lemma {:induction false} NeverHeldNeverGone(l: Local, q: seq<Ref>, cascade: (Local, Ref) -> Taken, r: Ref)
    requires !HeldBy(l, r)
    ensures !CardRecorded(l, q, cascade, r) && r !in TakenByCards(l, q, cascade)
  {
    if CardRecorded(l, q, cascade, r) {
      var i :| 0 <= i < |q| && q[i] == r && r.CardRef? && r.cardId in AfterCards(l, q[..i], cascade).cards;
      CardsShrink(l, q[..i], cascade);
    }
    if |q| > 0 {
      var n := |q| - 1;
      var before := AfterCards(l, q[..n], cascade);
      NeverHeldNeverGone(l, q[..n], cascade, r);
      CardsShrink(l, q[..n], cascade);
      ShrunkHolds(l, before, r);
      if q[n].CardRef? && q[n].cardId in before.cards {
        var l' := before.(cards := before.cards - {q[n].cardId});
        assert HeldBy(l', r) ==> HeldBy(before, r);
        GoneWereHeld(l', cascade(l', q[n]), r);
      }
    }
  }

  function DecksTakenByCards(l: Local, q: seq<Ref>, cascade: (Local, Ref) -> Taken): set<string> {
    if |q| == 0 then {}
    else
      var before, r := AfterCards(l, q[..|q| - 1], cascade), q[|q| - 1];
      DecksTakenByCards(l, q[..|q| - 1], cascade) +
      if r.CardRef? && r.cardId in before.cards then
        var l' := before.(cards := before.cards - {r.cardId});
        cascade(l', r).decks * l'.decks.Keys
      else {}
  }

  function DecksTakenByDecks(l: Local, q: seq<Ref>, cascade: (Local, Ref) -> Taken): set<string> {
    if |q| == 0 then {}
    else
      var before, r := AfterDecks(l, q[..|q| - 1], cascade), q[|q| - 1];
      DecksTakenByDecks(l, q[..|q| - 1], cascade) +
      if r.DeckRef? && DeckEmpty(before.cards, r.name) then
        var l' := before.(decks := before.decks - {r.name});
        cascade(l', r).decks * l'.decks.Keys
      else {}
  }

  /** The decks Anki took along while the tombstones were applied. */
  function DecksTaken(l: Local, q: seq<Ref>, cascade: (Local, Ref) -> Taken): set<string> {
    DecksTakenByCards(AfterNotes(l, NoteRefs(RefSet(q))), CardsOf(q), cascade) + DecksTakenByDecks(AfterContent(l, q, cascade), DecksOf(q), cascade)
  }

  lemma {:induction false} CardStepsAndDecks(l: Local, q: seq<Ref>, cascade: (Local, Ref) -> Taken, d: string)
    ensures d in l.decks && d !in AfterCards(l, q, cascade).decks <==> d in DecksTakenByCards(l, q, cascade)
  {
    if |q| > 0 {
      CardStepsAndDecks(l, q[..|q| - 1], cascade, d);
      CardsShrink(l, q[..|q| - 1], cascade);
    }
  }

  /** One listed deck: which decks go at this step. */
  lemma DeckStepDecks(before: Local, r: Ref, cascade: (Local, Ref) -> Taken, d: string)
    requires d in before.decks
    ensures var named := r == DeckRef(d) && DeckEmpty(before.cards, d);
      var l' := before.(decks := if r.DeckRef? then before.decks - {r.name} else before.decks);
      d !in DeckStep(before, r, cascade).decks <==>
        named || (r.DeckRef? && DeckEmpty(before.cards, r.name) && d in cascade(l', r).decks * l'.decks.Keys)
  {
    hide DeckEmpty;
  }

  lemma {:induction false} DeckStepsAndDecks(l: Local, q: seq<Ref>, cascade: (Local, Ref) -> Taken, d: string)
    requires d in l.decks
    ensures d !in AfterDecks(l, q, cascade).decks <==> DeckRecorded(l, q, cascade, DeckRef(d)) || d in DecksTakenByDecks(l, q, cascade)
  {
    if |q| > 0 {
      var n := |q| - 1;
      var before := AfterDecks(l, q[..n], cascade);
      DeckStepsAndDecks(l, q[..n], cascade, d);
      DecksShrink(l, q[..n], cascade);
      DecksRecorded(l, q, n, cascade);
      assert q[..n + 1] == q && AfterDecks(l, q, cascade) == DeckStep(before, q[n], cascade);
      if d in before.decks {
        DeckStepDecks(before, q[n], cascade, d);
      } else {
        assert d !in DeckStep(before, q[n], cascade).decks;
      }
      hide DeckRecorded;
      hide DeckEmpty;
      hide DeckStep;
    }
  }

  lemma {:induction false} NoDeckNoTaking(l: Local, q: seq<Ref>, cascade: (Local, Ref) -> Taken, d: string)
    requires d !in l.decks
    ensures d !in DecksTakenByDecks(l, q, cascade)
  {
    if |q| > 0 {
      NoDeckNoTaking(l, q[..|q| - 1], cascade, d);
      DecksShrink(l, q[..|q| - 1], cascade);
      hide DeckEmpty;
    }
  }

  /** Every deck that is gone was recorded, or taken along, or both. */
  lemma GoneDeckIsRecordedOrTaken(l: Local, q: seq<Ref>, cascade: (Local, Ref) -> Taken, d: string)
    requires d in l.decks
    ensures d !in AfterTombstones(l, q, cascade).decks ==> AppliedByServer(l, q, cascade, DeckRef(d)) || d in DecksTaken(l, q, cascade)
    ensures d in DecksTaken(l, q, cascade) ==> d !in AfterTombstones(l, q, cascade).decks
  {
    var l1, l2 := AfterNotes(l, NoteRefs(RefSet(q))), AfterContent(l, q, cascade);
    assert l1.decks == l.decks && AfterTombstones(l, q, cascade).decks == BeforeNotetypes(l, q, cascade).decks by {
      hide AfterCards;
      hide AfterDecks;
    }
    assert AppliedByServer(l, q, cascade, DeckRef(d)) <==> DeckRecorded(l2, DecksOf(q), cascade, DeckRef(d));
    DecksAsNamed(l, q, cascade);
    DecksShrink(l2, DecksOf(q), cascade);
    hide *;
    CardStepsAndDecks(l1, CardsOf(q), cascade, d);
    if d in l2.decks {
      DeckStepsAndDecks(l2, DecksOf(q), cascade, d);
    } else {
      NoDeckNoTaking(l2, DecksOf(q), cascade, d);
    }
    DecksOnlyGo(l2, BeforeNotetypes(l, q, cascade), d);
  }

  lemma DecksOnlyGo(l: Local, l': Local, d: string)
    requires Shrunk(l, l')
    ensures d in l'.decks ==> d in l.decks
  {
  }

  lemma DecksAsNamed(l: Local, q: seq<Ref>, cascade: (Local, Ref) -> Taken)
    ensures AfterContent(l, q, cascade) == AfterCards(AfterNotes(l, NoteRefs(RefSet(q))), CardsOf(q), cascade)
    ensures BeforeNotetypes(l, q, cascade) == AfterDecks(AfterContent(l, q, cascade), DecksOf(q), cascade)
    ensures DecksTaken(l, q, cascade)
         == DecksTakenByCards(AfterNotes(l, NoteRefs(RefSet(q))), CardsOf(q), cascade) + DecksTakenByDecks(AfterContent(l, q, cascade), DecksOf(q), cascade)
  {
  }

  /** Whatever is gone after the tombstones is in the record. */
  ghost predicate RecordComplete(l: Local, q: seq<Ref>, cascade: (Local, Ref) -> Taken) {
    && (forall r :: IsIdentity(r) && HeldBy(l, r) && !HeldBy(AfterTombstones(l, q, cascade), r) ==> AppliedByServer(l, q, cascade, r))
    && (forall d :: d in l.decks && d !in AfterTombstones(l, q, cascade).decks ==> AppliedByServer(l, q, cascade, DeckRef(d)))
  }

  /**
   * The record names every note, card and deck that is gone if and only if Anki took
   * no note or card along, and no deck but those with a recorded tombstone.
   */
  lemma RecordIsCompleteIff(l: Local, q: seq<Ref>, cascade: (Local, Ref) -> Taken)
    requires NoteSync.DistinctGuids(l.notes)
    ensures RecordComplete(l, q, cascade) <==>
      (TakenAlong(l, q, cascade) == {} && forall d :: d in l.decks && d in DecksTaken(l, q, cascade) ==> AppliedByServer(l, q, cascade, DeckRef(d)))
  {
    TakenAreIdentities(l, q, cascade);
    forall r | IsIdentity(r)
      ensures HeldBy(l, r) && !HeldBy(AfterTombstones(l, q, cascade), r) <==>
        AppliedByServer(l, q, cascade, r) || r in TakenAlong(l, q, cascade)
      ensures !(AppliedByServer(l, q, cascade, r) && r in TakenAlong(l, q, cascade))
    {
      GoneIsRecordedOrTaken(l, q, cascade, r);
    }
    forall d | d in l.decks
      ensures d !in AfterTombstones(l, q, cascade).decks ==> AppliedByServer(l, q, cascade, DeckRef(d)) || d in DecksTaken(l, q, cascade)
      ensures d in DecksTaken(l, q, cascade) ==> d !in AfterTombstones(l, q, cascade).decks
    {
      GoneDeckIsRecordedOrTaken(l, q, cascade, d);
    }
    hide AfterTombstones;
    hide AppliedByServer;
    hide HeldBy;
    hide TakenAlong;
    hide DecksTaken;
    hide IsIdentity;
    if TakenAlong(l, q, cascade) != {} {
      var r := Member(TakenAlong(l, q, cascade));
      assert IsIdentity(r);
    }
  }

  lemma {:induction false} CardsTakeIdentities(l: Local, q: seq<Ref>, cascade: (Local, Ref) -> Taken)
    ensures forall r <- TakenByCards(l, q, cascade) :: IsIdentity(r)
  {
    if |q| > 0 { CardsTakeIdentities(l, q[..|q| - 1], cascade); }
  }

  lemma {:induction false} DecksTakeIdentities(l: Local, q: seq<Ref>, cascade: (Local, Ref) -> Taken)
    ensures forall r <- TakenByDecks(l, q, cascade) :: IsIdentity(r)
  {
    if |q| > 0 { DecksTakeIdentities(l, q[..|q| - 1], cascade); }
  }

  lemma TakenAreIdentities(l: Local, q: seq<Ref>, cascade: (Local, Ref) -> Taken)
    ensures forall r <- TakenAlong(l, q, cascade) :: IsIdentity(r)
  {
    CardsTakeIdentities(AfterNotes(l, NoteRefs(RefSet(q))), CardsOf(q), cascade);
    DecksTakeIdentities(AfterContent(l, q, cascade), DecksOf(q), cascade);
  }

  // ------------------------------------------------------ what the tombstones reach --

  predicate OfListedNote(l: Local, q: seq<Ref>, c: int)
    requires c in l.cards
  {
    l.cards[c].nid in l.notes && NoteRef(l.notes[l.cards[c].nid].guid) in q
  }

  /**
   * Every listed note and card goes, the cards of a listed note with it, and every
   * listed deck that held no card; a listed notetype stays exactly if a note of it is
   * left.  Whatever is not listed stays, unless Anki took it along.
   */
  ghost predicate TombstonesReach(l: Local, q: seq<Ref>, cascade: (Local, Ref) -> Taken, l': Local) {
    && (forall g :: g != "" && NoteRef(g) in q ==> !HasNote(l', g))
    && (forall c :: CardRef(c) in q ==> c !in l'.cards)
    && (forall c :: c in l.cards && OfListedNote(l, q, c) ==> c !in l'.cards)
    && (forall d :: DeckRef(d) in q && (forall c :: c in l.cards ==> l.cards[c].deck != d) ==> d !in l'.decks)
    && (forall m :: m in l.notetypes ==> (m in l'.notetypes <==> NotetypeRef(m) !in q || exists n :: n in l'.notes && l'.notes[n].mid == m))
    && (forall g :: g != "" && HasNote(l, g) && NoteRef(g) !in q && NoteRef(g) !in TakenAlong(l, q, cascade) ==> HasNote(l', g))
    && (forall c :: c in l.cards && CardRef(c) !in q && CardRef(c) !in TakenAlong(l, q, cascade) && !OfListedNote(l, q, c) ==> c in l'.cards)
    && (forall d :: d in l.decks && DeckRef(d) !in q && d !in DecksTaken(l, q, cascade) ==> d in l'.decks)
  }

  lemma {:induction false} ListedCardGoes(l: Local, q: seq<Ref>, cascade: (Local, Ref) -> Taken, c: int)
    requires CardRef(c) in q
    ensures c !in AfterCards(l, q, cascade).cards
  {
    var n := |q| - 1;
    if q[n] != CardRef(c) {
      assert CardRef(c) in q[..n];
      ListedCardGoes(l, q[..n], cascade, c);
    }
  }

  lemma NotesReached(l: Local, q: seq<Ref>, cascade: (Local, Ref) -> Taken, g: string)
    requires NoteSync.DistinctGuids(l.notes) && g != ""
    ensures var l' := AfterTombstones(l, q, cascade);
      && (NoteRef(g) in q ==> !HasNote(l', g))
      && (HasNote(l, g) && NoteRef(g) !in q && NoteRef(g) !in TakenAlong(l, q, cascade) ==> HasNote(l', g))
  {
    GoneIsRecordedOrTaken(l, q, cascade, NoteRef(g));
    OnlyRowsGo(l, q, cascade);
    ShrunkHolds(l, AfterTombstones(l, q, cascade), NoteRef(g));
    hide AfterTombstones;
    hide TakenAlong;
    hide HasNote;
  }

  lemma CardsReached(l: Local, q: seq<Ref>, cascade: (Local, Ref) -> Taken, c: int)
    requires NoteSync.DistinctGuids(l.notes)
    ensures var l' := AfterTombstones(l, q, cascade);
      && (CardRef(c) in q ==> c !in l'.cards)
      && (c in l.cards && OfListedNote(l, q, c) ==> c !in l'.cards)
      && (c in l.cards && CardRef(c) !in q && CardRef(c) !in TakenAlong(l, q, cascade) && !OfListedNote(l, q, c) ==> c in l'.cards)
  {
    var ts := NoteRefs(RefSet(q));
    assert forall g :: NoteRef(g) in ts <==> NoteRef(g) in q;
    GoneIsRecordedOrTaken(l, q, cascade, CardRef(c));
    if CardRef(c) in q {
      assert CardRef(c) in CardsOf(q);
      ListedCardGoes(AfterNotes(l, ts), CardsOf(q), cascade, c);
      DecksShrink(AfterContent(l, q, cascade), DecksOf(q), cascade);
    }
    assert forall i :: 0 <= i < |CardsOf(q)| ==> CardsOf(q)[i] in q;
    hide TakenAlong;
    hide AfterNotes;
    hide AfterCards;
    hide AfterDecks;
    hide NotetypeUnused;
    hide CardsOf;
    hide DecksOf;
  }

  lemma DecksReached(l: Local, q: seq<Ref>, cascade: (Local, Ref) -> Taken, d: string)
    ensures var l' := AfterTombstones(l, q, cascade);
      && (DeckRef(d) in q && (forall c :: c in l.cards ==> l.cards[c].deck != d) ==> d !in l'.decks)
      && (d in l.decks && DeckRef(d) !in q && d !in DecksTaken(l, q, cascade) ==> d in l'.decks)
  {
    var l2 := AfterContent(l, q, cascade);
    OnlyRowsGo(l, q, cascade);
    if DeckRef(d) in q && forall c :: c in l.cards ==> l.cards[c].deck != d {
      assert DeckRef(d) in DecksOf(q);
      EmptyDeckGoes(l2, DecksOf(q), cascade, DeckRef(d));
      RecordedDeckIsGone(l2, DecksOf(q), cascade, DeckRef(d));
    }
    if d in l.decks && DeckRef(d) !in q && d !in DecksTaken(l, q, cascade) {
      GoneDeckIsRecordedOrTaken(l, q, cascade, d);
      UnlistedDeckIsNotRecorded(l, q, cascade, d);
    }
    hide AfterContent;
    hide AfterDecks;
    hide DecksTaken;
    hide DecksOf;
    hide NotetypeUnused;
    hide DeckRecorded;
  }

  lemma UnlistedDeckIsNotRecorded(l: Local, q: seq<Ref>, cascade: (Local, Ref) -> Taken, d: string)
    requires DeckRef(d) !in q
    ensures !AppliedByServer(l, q, cascade, DeckRef(d))
  {
    assert forall i :: 0 <= i < |DecksOf(q)| ==> DecksOf(q)[i] in q;
    hide DecksOf;
    hide AfterDecks;
    hide AfterContent;
    hide DeckEmpty;
  }

  lemma NotetypesReached(l: Local, q: seq<Ref>, cascade: (Local, Ref) -> Taken, m: int)
    requires m in l.notetypes
    ensures var l' := AfterTombstones(l, q, cascade);
      m in l'.notetypes <==> NotetypeRef(m) !in q || exists n :: n in l'.notes && l'.notes[n].mid == m
  {
    OnlyRowsGo(l, q, cascade);
    assert NotetypeRef(m) in NotetypeRefs(RefSet(q)) <==> NotetypeRef(m) in q;
    hide BeforeNotetypes;
  }

  lemma AllReached(l: Local, q: seq<Ref>, cascade: (Local, Ref) -> Taken)
    requires NoteSync.DistinctGuids(l.notes)
    ensures TombstonesReach(l, q, cascade, AfterTombstones(l, q, cascade))
  {
    hide AfterTombstones;
    hide TakenAlong;
    hide DecksTaken;
    hide HasNote;
    hide NoteSync.DistinctGuids;
    forall g | g != "" { NotesReached(l, q, cascade, g); }
    forall c { CardsReached(l, q, cascade, c); }
    forall d { DecksReached(l, q, cascade, d); }
    forall m | m in l.notetypes { NotetypesReached(l, q, cascade, m); }
  }

  // ------------------------------------------------------------------- local keys --

  predicate NoteInScope(l: Local, scope: set<string>, nid: int)
    requires nid in l.notes
  {
    l.notes[nid].guid != "" && (scope == {} || exists c <- l.cards.Keys :: l.cards[c].nid == nid && InScope(l.cards[c].deck, scope))
  }

  predicate CardInScope(l: Local, scope: set<string>, cid: int)
    requires cid in l.cards
  {
    && l.cards[cid].nid in l.notes && l.notes[l.cards[cid].nid].guid != ""
    && (scope == {} || InScope(l.cards[cid].deck, scope))
  }

  /** The identifiers a pass believes the collection holds; no route means no filter. */
  function LocalKeys(l: Local, scope: set<string>): set<Ref> {
    (set n | n in l.notes && NoteInScope(l, scope, n) :: NoteRef(l.notes[n].guid)) +
    (set c | c in l.cards && CardInScope(l, scope, c) :: CardRef(c)) +
    (set m | m in l.notetypes :: NotetypeRef(m)) +
    (set d | d in l.decks && (scope == {} || InScope(d, scope)) :: DeckRef(d))
  }

  /** What the snapshot of a finished pass records: unused stock notetypes stay out. */
  function FinalKeys(l: Local, scope: set<string>, view: set<Ref>): set<Ref> {
    set r | r in LocalKeys(l, scope) &&
      (r.NotetypeRef? ==> r in view || exists n <- l.notes.Keys :: NoteInScope(l, scope, n) && l.notes[n].mid == r.notetypeId)
  }

  // The same, told by the rows of the collection.

  /** The collection holds this resource, and the selection, if there is one, covers it. */
  ghost predicate HeldInScope(l: Local, scope: set<string>, r: Ref) {
    match r
    case NoteRef(g) =>
      exists n :: n in l.notes && l.notes[n].guid == g && g != "" && (scope == {} || exists c :: c in l.cards && l.cards[c].nid == n && InScope(l.cards[c].deck, scope))
    case CardRef(c) =>
      c in l.cards && l.cards[c].nid in l.notes && l.notes[l.cards[c].nid].guid != "" && (scope == {} || InScope(l.cards[c].deck, scope))
    case NotetypeRef(m) => m in l.notetypes
    case DeckRef(d) => d in l.decks && (scope == {} || InScope(d, scope))
  }

  /** A note of this type with a guid is in scope. */
  ghost predicate TypeInUse(l: Local, scope: set<string>, mid: int) {
    exists n :: n in l.notes && l.notes[n].mid == mid && l.notes[n].guid != ""
                && (scope == {} || exists c :: c in l.cards && l.cards[c].nid == n && InScope(l.cards[c].deck, scope))
  }

  /**
   * A snapshot records exactly the notes, cards and decks the collection holds in
   * scope, and of its notetypes those in use or listed by the server.
   */
  ghost predicate SnapshotRecords(s: Snapshot, names: Option<set<string>>, l: Local, listed: set<Ref>) {
    && s.version == 2 && s.scope == Some(if names.None? then {} else names.value)
    && forall r :: r in s.known <==>
         HeldInScope(l, if names.None? then {} else names.value, r)
         && (r.NotetypeRef? ==> r in listed || TypeInUse(l, if names.None? then {} else names.value, r.notetypeId))
  }

  lemma LocalKeysAreHeld(l: Local, scope: set<string>, r: Ref)
    ensures r in LocalKeys(l, scope) <==> HeldInScope(l, scope, r)
  {
    hide InScope;
    match r
    case NoteRef(g) =>
      if HeldInScope(l, scope, r) {
        var n :| n in l.notes && l.notes[n].guid == g && g != "" && (scope == {} || exists c :: c in l.cards && l.cards[c].nid == n && InScope(l.cards[c].deck, scope));
        assert NoteInScope(l, scope, n);
      }
    case CardRef(c) =>
    case NotetypeRef(m) =>
    case DeckRef(d) =>
  }

  lemma FinalKeysAreRecorded(l: Local, names: Option<set<string>>, view: set<Ref>, listed: set<Ref>)
    requires forall m :: NotetypeRef(m) in view <==> NotetypeRef(m) in listed
    ensures SnapshotRecords(BuildState(names, FinalKeys(l, ScopeOf(names), view)), names, l, listed)
  {
    var scope := ScopeOf(names);
    forall r
      ensures r in FinalKeys(l, scope, view) <==>
        HeldInScope(l, scope, r) && (r.NotetypeRef? ==> r in listed || TypeInUse(l, scope, r.notetypeId))
    {
      LocalKeysAreHeld(l, scope, r);
      hide LocalKeys;
      hide HeldInScope;
      if r.NotetypeRef? {
        assert TypeInUse(l, scope, r.notetypeId) <==> exists n <- l.notes.Keys :: NoteInScope(l, scope, n) && l.notes[n].mid == r.notetypeId by {
          if TypeInUse(l, scope, r.notetypeId) {
            var n :| n in l.notes && l.notes[n].mid == r.notetypeId && l.notes[n].guid != ""
                     && (scope == {} || exists c :: c in l.cards && l.cards[c].nid == n && InScope(l.cards[c].deck, scope));
            assert NoteInScope(l, scope, n);
          }
        }
      }
    }
  }

  // --------------------------------------------------------------- outgoing deletes --

  /** compute_local_deletes, minus what the server itself removed, limited to its scoped view. */
  function DeletesToSend(s: Snapshot, names: Option<set<string>>, held: set<Ref>, applied: set<Ref>, view: set<Ref>): set<Ref> {
    if ScopeMatches(s, names) then ((s.known - held) - applied) * view else {}
  }

  predicate IsContent(r: Ref) {
    r.NoteRef? || r.CardRef?
  }

  function ContentOf(rs: set<Ref>): set<Ref> {
    set r | r in rs && IsContent(r)
  }

  predicate NeedsApproval(s: Snapshot, deletes: set<Ref>) {
    || |deletes| > 100
    || ContentOf(deletes) != deletes
    || |ContentOf(deletes)| > (if 10 > |ContentOf(s.known)| / 10 then 10 else |ContentOf(s.known)| / 10)
  }

  // --------------------------------------------------------- safety over whole runs --

  /** One pass of one client: what it saw, what it sent, and how it ended. */
  datatype Pass = Pass(
    names: Option<set<string>>, approved: bool,
    order: seq<Ref>,          // tombstones that count, as listed
    held: set<Ref>,           // local identifiers once tombstones were applied
    applied: set<Ref>,        // removed by tombstones in this pass
    view: set<Ref>,           // identifiers in the scoped server manifest
    sent: set<Ref>,           // handed to batch_delete
    end: Option<set<Ref>>)    // identifiers of the new snapshot, if the pass succeeded

  /** What the code guarantees of one pass, whatever the other phases do. */
  ghost predicate LegalPass(s: Snapshot, p: Pass, s': Snapshot) {
    var deletes := DeletesToSend(s, p.names, p.held, p.applied, p.view);
    && (if NeedsApproval(s, deletes) && !p.approved then p.sent == {} && p.end.None? else p.sent == deletes)
    && (!ScopeMatches(s, p.names) ==> p.applied == {})
    && s' == if p.end.Some? then BuildState(p.names, p.end.value) else s
  }

  ghost predicate LegalRun(ps: seq<Pass>, ss: seq<Snapshot>) {
    && |ss| == |ps| + 1 && ss[0] == EMPTY_SNAPSHOT
    && forall i :: 0 <= i < |ps| ==> LegalPass(ss[i], ps[i], ss[i + 1])
  }

  /** Pass `k` is the client's last success before pass `n`. */
  ghost predicate LastSuccess(ps: seq<Pass>, k: nat, n: nat) {
    && k < n <= |ps| && ps[k].end.Some?
    && forall i :: k < i < n ==> ps[i].end.None?
  }

  /** A snapshot always is what the last successful pass left, routes included. */
  lemma {:induction false} SnapshotIsLastSuccess(ps: seq<Pass>, ss: seq<Snapshot>, n: nat) returns (k: nat)
    requires LegalRun(ps, ss) && n <= |ps|
    requires ss[n] != EMPTY_SNAPSHOT
    ensures LastSuccess(ps, k, n) && ss[n] == BuildState(ps[k].names, ps[k].end.value)
  {
    hide DeletesToSend;
    hide NeedsApproval;
    var p := ps[n - 1];
    assert LegalPass(ss[n - 1], p, ss[n]);
    if p.end.Some? {
      k := n - 1;
    } else {
      k := SnapshotIsLastSuccess(ps, ss, n - 1);
    }
  }

  /**
   * Over every run of passes with arbitrary route changes, failures and edits in
   * between: whatever a pass deletes on the server was held locally at the end of
   * the client's last successful pass, which ran under the same scope; it is gone
   * locally, is in the scoped view, and was not removed by the server this time.
   */
  lemma DeletesAreOwnAndCurrent(ps: seq<Pass>, ss: seq<Snapshot>, n: nat, r: Ref) returns (k: nat)
    requires LegalRun(ps, ss) && n < |ps| && r in ps[n].sent
    ensures LastSuccess(ps, k, n) && r in ps[k].end.value && ScopeOf(ps[k].names) == ScopeOf(ps[n].names)
    ensures r !in ps[n].held && r in ps[n].view && r !in ps[n].applied
  {
    assert LegalPass(ss[n], ps[n], ss[n + 1]);
    k := SnapshotIsLastSuccess(ps, ss, n);
  }

  /** After a change of routes the next pass deletes nothing in either direction. */
  lemma RouteChangeDeletesNothing(ps: seq<Pass>, ss: seq<Snapshot>, k: nat, n: nat)
    requires LegalRun(ps, ss) && n < |ps| && LastSuccess(ps, k, n)
    requires ScopeOf(ps[k].names) != ScopeOf(ps[n].names)
    ensures ps[n].sent == {} && ps[n].applied == {}
  {
    assert LegalPass(ss[n], ps[n], ss[n + 1]);
    SuccessSetsSnapshot(ps, ss, k, n);
  }

  lemma {:induction false} SuccessSetsSnapshot(ps: seq<Pass>, ss: seq<Snapshot>, k: nat, n: nat)
    requires LegalRun(ps, ss) && n <= |ps| && LastSuccess(ps, k, n)
    ensures ss[n] == BuildState(ps[k].names, ps[k].end.value)
  {
    assert LegalPass(ss[n - 1], ps[n - 1], ss[n]);
    if n > k + 1 {
      SuccessSetsSnapshot(ps, ss, k, n - 1);
    }
  }

  /** Without approval no pass deletes a deck or notetype, more than 100 resources, or over a tenth of the content. */
  lemma UnapprovedDeletesAreSmall(ps: seq<Pass>, ss: seq<Snapshot>, n: nat)
    requires LegalRun(ps, ss) && n < |ps| && !ps[n].approved
    ensures |ps[n].sent| <= 100 && forall r <- ps[n].sent :: r.NoteRef? || r.CardRef?
    ensures |ps[n].sent| <= 10 || 10 * |ps[n].sent| <= |set r | r in ss[n].known && (r.NoteRef? || r.CardRef?)|
  {
    assert LegalPass(ss[n], ps[n], ss[n + 1]);
    var sent := ps[n].sent;
    assert ContentOf(ss[n].known) == set r | r in ss[n].known && (r.NoteRef? || r.CardRef?);
    if sent != {} {
      assert ContentOf(sent) == sent;
      forall r | r in sent ensures IsContent(r) { assert r in ContentOf(sent); }
    }
  }

  /** Few enough, content only, and at most ten or a tenth of what was known. */
  predicate Modest(known: set<Ref>, deletes: set<Ref>) {
    && |deletes| <= 100 && (forall r <- deletes :: r.NoteRef? || r.CardRef?)
    && (|deletes| <= 10 || 10 * |deletes| <= |set r | r in known && (r.NoteRef? || r.CardRef?)|)
  }

  /** The limits are exact: an unapproved pass sends its deletes if and only if they are modest. */
  lemma UnapprovedPassIsRefusedIffImmodest(s: Snapshot, p: Pass, s': Snapshot)
    requires LegalPass(s, p, s') && !p.approved
    ensures var deletes := DeletesToSend(s, p.names, p.held, p.applied, p.view);
      if Modest(s.known, deletes) then p.sent == deletes else p.sent == {} && p.end.None?
  {
    var deletes := DeletesToSend(s, p.names, p.held, p.applied, p.view);
    assert ContentOf(s.known) == set r | r in s.known && (r.NoteRef? || r.CardRef?);
    assert forall r :: IsContent(r) <==> r.NoteRef? || r.CardRef?;
    assert ContentOf(deletes) == deletes <==> forall r <- deletes :: IsContent(r);
  }

  // ------------------------------------------------------- resources the server removed --

  /** From pass `i` on the resource is not held, not removed again, and in no later snapshot. */
  ghost predicate StaysAway(ps: seq<Pass>, i: nat, n: nat, r: Ref)
    requires n < |ps|
  {
    && (forall j :: i <= j <= n ==> r !in ps[j].held)
    && (forall j :: i < j <= n ==> r !in ps[j].applied)
    && (forall j :: i <= j < n && ps[j].end.Some? ==> r !in ps[j].end.value)
  }

  lemma {:induction false} FailuresKeepSnapshot(ps: seq<Pass>, ss: seq<Snapshot>, i: nat, n: nat)
    requires LegalRun(ps, ss) && i <= n <= |ps| && forall j :: i <= j < n ==> ps[j].end.None?
    ensures ss[n] == ss[i]
  {
    if i < n {
      FailuresKeepSnapshot(ps, ss, i, n - 1);
      assert LegalPass(ss[n - 1], ps[n - 1], ss[n]);
    }
  }

  /** After a success the snapshot no longer knows what stays away. */
  lemma SuccessForgets(ps: seq<Pass>, ss: seq<Snapshot>, i: nat, j: nat, n: nat, r: Ref)
    requires LegalRun(ps, ss) && i <= j < n < |ps| && ps[j].end.Some? && StaysAway(ps, i, n, r)
    ensures r !in ss[n].known
  {
    if ss[n] != EMPTY_SNAPSHOT {
      var k := SnapshotIsLastSuccess(ps, ss, n);
      assert j <= k;
    }
  }

  /**
   * Whether a client echoes a deletion it received.  What is gone since pass `i`,
   * which applied tombstones, is sent by the later pass `n` if and only if no pass
   * from `i` to `n` succeeded, the snapshot knew it, the scope is the same, the
   * server still lists it, and the deletes of pass `n` are approved or within the
   * limits.
   */
  lemma RemovedResourceIsEchoedIff(ps: seq<Pass>, ss: seq<Snapshot>, i: nat, n: nat, r: Ref)
    requires LegalRun(ps, ss) && i < n < |ps| && ScopeMatches(ss[i], ps[i].names) && StaysAway(ps, i, n, r)
    ensures r in ps[n].sent <==>
      && (forall j :: i <= j < n ==> ps[j].end.None?)
      && r in ss[i].known && ScopeOf(ps[n].names) == ScopeOf(ps[i].names) && r in ps[n].view
      && (ps[n].approved || Modest(ss[n].known, DeletesToSend(ss[n], ps[n].names, ps[n].held, ps[n].applied, ps[n].view)))
  {
    assert LegalPass(ss[i], ps[i], ss[i + 1]) && LegalPass(ss[n], ps[n], ss[n + 1]);
    if !ps[n].approved {
      UnapprovedPassIsRefusedIffImmodest(ss[n], ps[n], ss[n + 1]);
    }
    hide Modest;
    hide NeedsApproval;
    if j :| i <= j < n && ps[j].end.Some? {
      SuccessForgets(ps, ss, i, j, n, r);
    } else {
      FailuresKeepSnapshot(ps, ss, i, n);
    }
  }
}
