// The card pass: newest-wins by logical identity, with server-authoritative
// keys, and what a pull writes (card_sync.py; anki_apply.py: apply_card).

module CardSync {
  import opened Prelude
  import opened Clock
  import opened ServerSpec
  import opened ServerRuns
  import opened Anki
  import opened Server
  import opened DayShift

  datatype LocalCard = LocalCard(cid: int, row: CardRow)

  /** One logical card on both sides. */
  datatype CardPair = CardPair(local: Option<LocalCard>, server: Option<Card>)

  /** `defaultDeck` is the deck with id 1, where Anki puts generated cards. */
  datatype Env = Env(newestWins: bool, preferServer: bool, now: int, pushedAt: int, wallClock: nat, defaultDeck: string)

  datatype Plan = Skip | Push | Pull | Conflict

  // ----------------------------------------------------------------- planning --

  predicate Pristine(s: Scheduling) {
    s.kind == 0 && s.queue == 0 && s.ivl == 0 && s.reps == 0 && s.lapses == 0
  }

  /** Ids are creation times in milliseconds: this one was made when it was last changed. */
  predicate CreatedAt(id: int, mod: int) {
    id > 0 && -1 <= id / 1000 - mod <= 1
  }

  /** A pristine card of the default deck, generated while an earlier pull was aborted. */
  predicate LooksLikeInterruptedPull(fold: string -> string, e: Env, l: LocalCard, serverDeck: string) {
    && l.row.deck == e.defaultDeck && fold(serverDeck) != fold(l.row.deck)
    && Pristine(l.row.scheduling)
    && CreatedAt(l.row.nid, l.row.mod) && CreatedAt(l.cid, l.row.mod)
  }

  function WinnerOf(l: LocalCard, s: CardEntry, e: Env): Option<Winner> {
    NewestSide(LocalStamps(l.row.mod), ServerStamps(s.modifiedAt, s.clientModifiedAt), Some(e.now))
  }

  function PlanOf(fold: string -> string, local: Option<LocalCard>, server: Option<CardEntry>, e: Env, authoritative: bool): Plan {
    if e.preferServer || authoritative then
      (if server.Some? then Pull else Skip)
    else if local.None? then (if server.Some? then Pull else Skip)
    else if server.None? then Push
    else if local.value.row.deck != server.value.deck then
      if e.newestWins && LooksLikeInterruptedPull(fold, e, local.value, server.value.deck) then Pull
      else
        match (if e.newestWins then WinnerOf(local.value, server.value, e) else None)
        case Some(Server) => Pull
        case Some(Local) => Push
        case None => Conflict
    else
      match WinnerOf(local.value, server.value, e)
      case Some(Server) => Pull
      case Some(Local) => Push
      case None => Skip
  }

  function EntryOfPair(p: CardPair): Option<CardEntry> {
    if p.server.Some? then Some(CardEntryOf(p.server.value)) else None
  }

  // ----------------------------------------------------------------- outcomes --

  /** A pulled record overwrites deck, scheduling and time of the card it names. */
  function Pulled(row: CardRow, c: Card, crt: int, wallClock: nat): CardRow {
    row.(deck := c.deck, scheduling := Localized(c.scheduling, crt),
         mod := SourceModifiedSeconds(ServerStamps(c.modifiedAt, c.clientModifiedAt), wallClock))
  }

  /** The record a collection uploads for one of its cards. */
  function Upload(key: CardKey, l: LocalCard, crt: int): CardPut {
    CardPut(l.cid, key, l.row.deck, l.row.scheduling.(crt := crt), l.row.mod * SECOND)
  }

  /** The server's row after an upload; a strictly later stored time wins. */
  function Stored(c: CardPut, server: Option<Card>, pushedAt: int): Card {
    var at := UtcWriteTime(pushedAt, c.clientModifiedAt);
    if server.Some? && server.value.clientModifiedAt > at then server.value
    else Card(if server.Some? then server.value.cardId else c.cardId, c.deck, c.scheduling, pushedAt, at)
  }

  function Outcome(fold: string -> string, key: CardKey, p: CardPair, e: Env, authoritative: bool, crt: int): CardPair {
    match PlanOf(fold, p.local, EntryOfPair(p), e, authoritative)
    case Push => p.(server := Some(Stored(Upload(key, p.local.value, crt), p.server, e.pushedAt)))
    case Pull => p.(local := PulledInto(p.local, p.server.value, crt, e.wallClock))
    case Skip => p
    case Conflict => p
  }

  // A pass limited to some decks plans on what it sees of both sides, and acts on what is there.

  predicate Sees(v: CardPair, p: CardPair) {
    v.local in {None, p.local} && v.server in {None, p.server}
  }

  /**
   * One logical card after a pass with no other writer that saw `v` of it.  `pulled`
   * is whether its record came down; pulls come first, and uploads read what they left.
   */
  function OutcomeIn(fold: string -> string, key: CardKey, p: CardPair, v: CardPair, e: Env, authoritative: bool, crt: int, pulled: bool): CardPair
    requires Sees(v, p)
  {
    var local := if pulled && p.server.Some? then PulledInto(p.local, p.server.value, crt, e.wallClock) else p.local;
    if PlanOf(fold, v.local, EntryOfPair(v), e, authoritative) == Push && local.Some?
    then CardPair(local, Some(Stored(Upload(key, local.value, crt), p.server, e.pushedAt)))
    else p.(local := local)
  }

  /** A pass that sees everything and pulls what it planned is the plain pass. */
  lemma SeeingAllIsPlain(fold: string -> string, key: CardKey, p: CardPair, e: Env, authoritative: bool, crt: int)
    ensures var pulled := PlanOf(fold, p.local, EntryOfPair(p), e, authoritative) == Pull;
      OutcomeIn(fold, key, p, p, e, authoritative, crt, pulled) == Outcome(fold, key, p, e, authoritative, crt)
  {
  }

  /**
   * A card the server keeps out of the pass's sight is pushed as if it were new:
   * its row survives if and only if its source time is strictly later.
   */
  lemma HiddenCardIsOverwrittenUnlessLater(fold: string -> string, key: CardKey, p: CardPair, v: CardPair, e: Env, crt: int)
    requires Sees(v, p) && v.local.Some? && v.server.None? && p.server.Some? && !e.preferServer
    ensures var p' := OutcomeIn(fold, key, p, v, e, false, crt, false);
      var at := UtcWriteTime(e.pushedAt, p.local.value.row.mod * SECOND);
      if p.server.value.clientModifiedAt > at then p' == p
      else p'.server == Some(Card(p.server.value.cardId, p.local.value.row.deck, p.local.value.row.scheduling.(crt := crt), e.pushedAt, at))
  {
  }

  // ------------------------------------------------------------------ fixpoint --

  predicate Good(p: CardPair, now: int) {
    SECOND <= now && (p.server.Some? ==>
      SECOND <= p.server.value.modifiedAt <= now && ClockBounded(p.server.value.modifiedAt, p.server.value.clientModifiedAt))
  }

  /** Nothing to decide any more, at any later clock. */
  ghost predicate Quiet(p: CardPair, from: int) {
    && p.local.Some? && p.server.Some? && p.local.value.row.deck == p.server.value.deck
    && Settled(p.local.value.row.mod, p.server.value.modifiedAt, p.server.value.clientModifiedAt, from)
  }

  /** Same deck and, whatever the two creation days, the same comparison fingerprint. */
  predicate Matches(p: CardPair, crt: int) {
    && p.local.Some? && p.server.Some? && p.local.value.row.deck == p.server.value.deck
    && FingerprintOf(p.local.value.row.scheduling.(crt := crt)) == FingerprintOf(p.server.value.scheduling)
  }

  lemma PullSettlesCard(fold: string -> string, key: CardKey, p: CardPair, e: Env, authoritative: bool, crt: int)
    requires Good(p, e.now) && p.local.Some? && crt != 0
    requires PlanOf(fold, p.local, EntryOfPair(p), e, authoritative) == Pull
    requires p.server.Some? ==> p.server.value.scheduling.crt != 0
    ensures var p' := Outcome(fold, key, p, e, authoritative, crt);
      Quiet(p', e.now) && Matches(p', crt) && p'.server == p.server
  {
    var c := p.server.value;
    PullSettlesIffBounded(c.modifiedAt, c.clientModifiedAt, e.now, e.wallClock);
    HopKeepsFingerprintIff(c.scheduling, crt);
    assert Localized(c.scheduling, crt).(crt := crt) == Localized(c.scheduling, crt);
  }

  /** A push that won is stored whole, under the client's own time. */
  lemma WinningPushSettlesCard(fold: string -> string, key: CardKey, p: CardPair, e: Env, authoritative: bool, crt: int)
    requires Good(p, e.now) && e.now <= e.pushedAt && p.local.Some? && p.server.Some?
    requires PlanOf(fold, p.local, EntryOfPair(p), e, authoritative) == Push
    ensures var p' := Outcome(fold, key, p, e, authoritative, crt);
      && Quiet(p', e.pushedAt) && Matches(p', crt) && Good(p', e.pushedAt)
      && p'.server.value.clientModifiedAt == p.local.value.row.mod * SECOND
      && p'.server.value.cardId == p.server.value.cardId
  {
    var c := p.server.value;
    NewestWinsSettles(p.local.value.row.mod, c.modifiedAt, c.clientModifiedAt, e.now, e.pushedAt, e.wallClock);
  }

  lemma QuietSkips(fold: string -> string, key: CardKey, p: CardPair, e: Env, crt: int, from: int)
    requires Quiet(p, from) && from <= e.now && !e.preferServer
    ensures PlanOf(fold, p.local, EntryOfPair(p), e, false) == Skip
    ensures Outcome(fold, key, p, e, false, crt) == p
  {
  }

  /**
   * A card both sides hold needs one conflict-free pass: afterwards no later pass
   * moves it, and if it moved, both sides compare as equal.
   */
  lemma SharedCardSettlesAtOnce(fold: string -> string, key: CardKey, p: CardPair, e1: Env, e2: Env, crt: int, authoritative: bool)
    requires Good(p, e1.now) && e1.now <= e1.pushedAt <= e2.now && crt != 0 && !e2.preferServer
    requires p.local.Some? && p.server.Some? && p.server.value.scheduling.crt != 0
    requires PlanOf(fold, p.local, EntryOfPair(p), e1, authoritative) != Conflict
    ensures var p1 := Outcome(fold, key, p, e1, authoritative, crt);
      && PlanOf(fold, p1.local, EntryOfPair(p1), e2, false) == Skip
      && (p1 != p ==> Matches(p1, crt))
  {
    var p1 := Outcome(fold, key, p, e1, authoritative, crt);
    match PlanOf(fold, p.local, EntryOfPair(p), e1, authoritative)
    case Pull =>
      PullSettlesCard(fold, key, p, e1, authoritative, crt);
      QuietSkips(fold, key, p1, e2, crt, e1.now);
    case Push =>
      WinningPushSettlesCard(fold, key, p, e1, authoritative, crt);
      QuietSkips(fold, key, p1, e2, crt, e1.pushedAt);
    case Skip =>
      NewestWinsSettles(p.local.value.row.mod, p.server.value.modifiedAt, p.server.value.clientModifiedAt,
                        e1.now, e1.pushedAt, e1.wallClock);
      QuietSkips(fold, key, p1, e2, crt, e1.now);
  }

  /**
   * A card only the collection has is published; if its clock was clamped the next
   * pass may take the stored time back, and from then on nothing moves.
   */
  lemma NewCardSettlesInTwo(fold: string -> string, key: CardKey, p: CardPair, e1: Env, e2: Env, e3: Env, crt: int)
    requires Good(p, e1.now) && p.local.Some? && p.server.None? && crt != 0
    requires e1.now <= e1.pushedAt <= e2.now <= e2.pushedAt <= e3.now
    requires !e1.preferServer && !e2.preferServer && !e3.preferServer
    ensures var p1 := Outcome(fold, key, p, e1, false, crt);
      && Matches(p1, crt) && PlanOf(fold, p1.local, EntryOfPair(p1), e2, false) != Conflict
      && var p2 := Outcome(fold, key, p1, e2, false, crt);
      && Matches(p2, crt) && PlanOf(fold, p2.local, EntryOfPair(p2), e3, false) == Skip
  {
    var p1 := Outcome(fold, key, p, e1, false, crt);
    assert Good(p1, e1.pushedAt);
    SharedCardSettlesAtOnce(fold, key, p1, e2, e3, crt, false);
  }

  /**
   * Two conflict-free passes settle a card the collection holds if the server does;
   * the second moves it at most to what the first uploaded, in the same deck.
   */
  lemma TwoPassesSettleCard(fold: string -> string, key: CardKey, p: CardPair, e1: Env, e2: Env, e3: Env, crt: int)
    requires Good(p, e1.now) && (p.server.Some? ==> p.local.Some?) && e1.now <= e1.pushedAt <= e2.now <= e2.pushedAt <= e3.now
    requires !e1.preferServer && !e2.preferServer && !e3.preferServer
    requires PlanOf(fold, p.local, EntryOfPair(p), e1, false) != Conflict
    ensures var p1 := Outcome(fold, key, p, e1, false, crt);
      var p2 := Outcome(fold, key, p1, e2, false, crt);
      && PlanOf(fold, p2.local, EntryOfPair(p2), e3, false) == Skip
      && (p1.local.Some? <==> p.local.Some?) && (p2.local.Some? <==> p.local.Some?)
      && (p1.local.Some? ==>
          && p2.local.value.cid == p1.local.value.cid && p2.local.value.row.deck == p1.local.value.row.deck
          && p2.local.value.row.scheduling.odid == p1.local.value.row.scheduling.odid)
  {
    var p1 := Outcome(fold, key, p, e1, false, crt);
    if p.local.Some? {
      if p.server.Some? {
        SharedSettles(fold, key, p, e1, e2, crt);
        QuietSkips(fold, key, p1, e2, crt, e2.now);
        QuietSkips(fold, key, p1, e3, crt, e2.now);
      } else {
        assert Good(p1, e1.pushedAt);
        assert p1.local.value.row.deck == p1.server.value.deck && p1.server.value.scheduling.odid == p1.local.value.row.scheduling.odid;
        SharedSettles(fold, key, p1, e2, e3, crt);
        QuietSkips(fold, key, Outcome(fold, key, p1, e2, false, crt), e3, crt, e3.now);
      }
    }
  }

  /** After one conflict-free pass nothing is left to decide, whatever the creation times. */
  lemma SharedSettles(fold: string -> string, key: CardKey, p: CardPair, e1: Env, e2: Env, crt: int)
    requires Good(p, e1.now) && e1.now <= e1.pushedAt <= e2.now && p.local.Some? && p.server.Some? && !e1.preferServer
    requires PlanOf(fold, p.local, EntryOfPair(p), e1, false) != Conflict
    ensures Quiet(Outcome(fold, key, p, e1, false, crt), e2.now)
  {
    var c := p.server.value;
    NewestWinsSettles(p.local.value.row.mod, c.modifiedAt, c.clientModifiedAt, e1.now, e1.pushedAt, e1.wallClock);
    PullSettlesIffBounded(c.modifiedAt, c.clientModifiedAt, e1.now, e1.wallClock);
  }

  /**
   * A card an aborted pull generated never outranks the server's, however late its
   * clock: milliseconds of the note, the card and its last change name one moment.
   */
  lemma GeneratedCardIsTakenBack(fold: string -> string, l: LocalCard, s: CardEntry, e: Env, created: int)
    requires e.newestWins && fold(s.deck) != fold(e.defaultDeck) && l.row.deck == e.defaultDeck
    requires Pristine(l.row.scheduling) && 1 < created && l.row.mod == created
    requires created * 1000 <= l.row.nid < created * 1000 + 2000 && created * 1000 <= l.cid < created * 1000 + 2000
    ensures PlanOf(fold, Some(l), Some(s), e, false) == Pull
  {
    assert created <= l.row.nid / 1000 <= created + 1 && created <= l.cid / 1000 <= created + 1;
  }

  // ------------------------------------------------------------- local lookups --

  predicate HasIdentity(l: Local, cid: int, key: CardKey) {
    cid in l.cards && Identity(l, cid) == key
  }

  /** What the duplicate repair establishes before every pass. */
  ghost predicate DistinctIdentities(l: Local) {
    forall c1, c2 :: c1 in l.cards && c2 in l.cards && Identity(l, c1) == Identity(l, c2) && Identity(l, c1).guid != "" ==> c1 == c2
  }

  ghost function CardNamed(l: Local, key: CardKey): Option<LocalCard> {
    if exists cid :: HasIdentity(l, cid, key) then
      var cid :| HasIdentity(l, cid, key);
      Some(LocalCard(cid, l.cards[cid]))
    else None
  }

  lemma NamedCard(l: Local, cid: int, key: CardKey)
    requires DistinctIdentities(l) && HasIdentity(l, cid, key) && key.guid != ""
    ensures CardNamed(l, key) == Some(LocalCard(cid, l.cards[cid]))
  {
  }

  /** card_manifest: every card of a note with a guid, by logical identity. */
  method CardManifest(l: Local) returns (m: map<CardKey, LocalCard>)
    requires DistinctIdentities(l)
    ensures forall key :: key in m <==> key.guid != "" && CardNamed(l, key).Some?
    ensures forall key :: key in m ==> CardNamed(l, key) == Some(m[key])
  {
    m := map[];
    var rest := l.cards.Keys;
    while rest != {}
      invariant rest <= l.cards.Keys
      invariant forall key :: key in m ==> key.guid != "" && CardNamed(l, key) == Some(m[key])
      invariant forall c :: c in l.cards && c !in rest && Identity(l, c).guid != "" ==> Identity(l, c) in m
      decreases rest
    {
      var c := Pick(rest);
      rest := rest - {c};
      var key := Identity(l, c);
      if key.guid != "" {
        NamedCard(l, c, key);
        m := m[key := LocalCard(c, l.cards[c])];
      }
    }
    forall key: CardKey | key.guid != "" && CardNamed(l, key).Some?
      ensures key in m
    {
      var cid :| HasIdentity(l, cid, key);
    }
  }

  /** The part of a collection a pass over the decks of `scope` looks at. */
  function Shown(l: Local, scope: set<string>): Local {
    l.(cards := ScopedCards(l, scope))
  }

  lemma ShownCard(l: Local, scope: set<string>, key: CardKey)
    requires DistinctIdentities(l) && key.guid != ""
    ensures CardNamed(Shown(l, scope), key) in {None, CardNamed(l, key)}
    ensures CardNamed(Shown(l, scope), key).Some? <==>
      CardNamed(l, key).Some? && InSelection(scope, CardNamed(l, key).value.row.deck)
  {
    var shown := Shown(l, scope);
    forall c | c in shown.cards ensures Identity(shown, c) == Identity(l, c) { }
    assert DistinctIdentities(shown);
    if c :| HasIdentity(shown, c, key) {
      NamedCard(shown, c, key);
      NamedCard(l, c, key);
    }
    if c :| HasIdentity(l, c, key) {
      NamedCard(l, c, key);
      assert c in shown.cards ==> HasIdentity(shown, c, key);
    }
  }

  lemma ShownIsDistinct(l: Local, scope: set<string>)
    requires DistinctIdentities(l)
    ensures DistinctIdentities(Shown(l, scope))
  {
    var shown := Shown(l, scope);
    forall c | c in shown.cards ensures Identity(shown, c) == Identity(l, c) { }
  }

  method FindCard(col: Collection, key: CardKey) returns (cid: Option<int>)
    requires DistinctIdentities(col.State()) && key.guid != ""
    ensures forall c :: HasIdentity(col.State(), c, key) <==> cid == Some(c)
    ensures cid.None? ==> CardNamed(col.State(), key) == None
    ensures cid.Some? ==> cid.value in col.cards && CardNamed(col.State(), key) == Some(LocalCard(cid.value, col.cards[cid.value]))
  {
    var rest := col.cards.Keys;
    while rest != {}
      invariant rest <= col.cards.Keys
      invariant forall c :: HasIdentity(col.State(), c, key) ==> c in rest
      decreases rest
    {
      var c := Pick(rest);
      if Identity(col.State(), c) == key {
        NamedCard(col.State(), c, key);
        return Some(c);
      }
      rest := rest - {c};
    }
    cid := None;
  }

  function PulledInto(local: Option<LocalCard>, c: Card, crt: int, wallClock: nat): Option<LocalCard> {
    if local.None? then None else Some(LocalCard(local.value.cid, Pulled(local.value.row, c, crt, wallClock)))
  }

  /** apply_card: a card the collection does not have is skipped, not invented. */
  method ApplyCard(col: Collection, key: CardKey, c: Card, wallClock: nat) returns (cid: int)
    requires DistinctIdentities(col.State())
    modifies col`cards
    ensures DistinctIdentities(col.State()) && col.cards.Keys == old(col.cards.Keys)
    ensures cid == if key.guid != "" && CardNamed(old(col.State()), key).Some? then CardNamed(old(col.State()), key).value.cid else 0
    ensures key.guid != "" ==> CardNamed(col.State(), key) == PulledInto(CardNamed(old(col.State()), key), c, col.crt, wallClock)
    ensures forall k: CardKey :: k.guid != "" && k != key ==> CardNamed(col.State(), k) == CardNamed(old(col.State()), k)
    ensures forall c :: c in old(col.cards) ==> col.cards[c].nid == old(col.cards)[c].nid
    ensures forall c :: Identity(col.State(), c) == Identity(old(col.State()), c)
    ensures forall c :: c in old(col.cards) && (key.guid == "" || Identity(old(col.State()), c) != key) ==> col.cards[c] == old(col.cards)[c]
  {
    if key.guid == "" {
      return 0;
    }
    ghost var was := col.State();
    var found := FindCard(col, key);
    if found.None? {
      return 0;
    }
    cid := found.value;
    col.cards := col.cards[cid := Pulled(col.cards[cid], c, col.crt, wallClock)];
    assert forall x :: Identity(col.State(), x) == Identity(was, x);
    NamedCard(col.State(), cid, key);
    OtherCardsStay(was, col.State(), cid);
  }

  lemma OtherCardsStay(was: Local, now: Local, cid: int)
    requires DistinctIdentities(was) && DistinctIdentities(now) && cid in now.cards && cid in was.cards
    requires now.cards == was.cards[cid := now.cards[cid]]
    requires forall x :: Identity(now, x) == Identity(was, x)
    ensures forall k: CardKey :: k.guid != "" && k != Identity(was, cid) ==> CardNamed(now, k) == CardNamed(was, k)
  {
    forall k: CardKey | k.guid != "" && k != Identity(was, cid)
      ensures CardNamed(now, k) == CardNamed(was, k)
    {
      forall c ensures HasIdentity(now, c, k) <==> HasIdentity(was, c, k) { }
      if c :| HasIdentity(now, c, k) {
        NamedCard(now, c, k);
        NamedCard(was, c, k);
      }
    }
  }

  // ------------------------------------------------------------ the pass itself --

  const BATCH_SIZE := 3000

  ghost function PairOf(l: Local, cards: map<CardKey, Card>, key: CardKey): CardPair {
    CardPair(CardNamed(l, key), if key in cards then Some(cards[key]) else None)
  }

  /** What a pass over the decks of `scope` sees when the manifest lists `listed`. */
  ghost function ViewOf(l: Local, scope: set<string>, cards: map<CardKey, Card>, listed: set<CardKey>, key: CardKey): CardPair {
    CardPair(CardNamed(Shown(l, scope), key), if key in listed && key in cards then Some(cards[key]) else None)
  }

  ghost function PlanAt(fold: string -> string, l: Local, scope: set<string>, cards: map<CardKey, Card>, listed: set<CardKey>,
                        e: Env, authoritative: set<CardKey>, key: CardKey): Plan
  {
    var v := ViewOf(l, scope, cards, listed, key);
    PlanOf(fold, v.local, EntryOfPair(v), e, key in authoritative)
  }

  lemma ViewIsSeen(l: Local, scope: set<string>, cards: map<CardKey, Card>, listed: set<CardKey>, key: CardKey)
    requires DistinctIdentities(l) && key.guid != ""
    ensures Sees(ViewOf(l, scope, cards, listed, key), PairOf(l, cards, key))
  {
    ShownCard(l, scope, key);
  }

  /** Without a selection and with a full manifest a pass sees everything. */
  lemma WholeView(l: Local, cards: map<CardKey, Card>, key: CardKey)
    ensures ViewOf(l, {}, cards, cards.Keys, key) == PairOf(l, cards, key)
  {
    NoSelection(l);
    assert Shown(l, {}) == l;
  }

  /** The manifest lists some server cards, each as it stands. */
  ghost predicate CardsListed(remote: map<CardKey, CardEntry>, cards: map<CardKey, Card>) {
    forall k :: k in remote ==> k in cards && remote[k] == CardEntryOf(cards[k])
  }

  ghost predicate UniqueIds(cards: map<CardKey, Card>) {
    forall k1, k2 :: k1 in cards && k2 in cards && cards[k1].cardId == cards[k2].cardId ==> k1 == k2
  }

  function Lookup<K, V>(m: map<K, V>, key: K): Option<V> {
    if key in m then Some(m[key]) else None
  }

  ghost predicate DistinctKeys(keys: seq<CardKey>) {
    forall i, j :: 0 <= i < j < |keys| ==> keys[i] != keys[j]
  }

  /** The planning loop, over the keys of either manifest in any order. */
  method PlanCards(fold: string -> string, local: map<CardKey, LocalCard>, remote: map<CardKey, CardEntry>, e: Env,
                   authoritative: set<CardKey>)
    returns (pushes: seq<CardKey>, pulls: seq<CardKey>, conflicts: seq<CardKey>)
    ensures forall k :: k in pushes <==> PlanOf(fold, Lookup(local, k), Lookup(remote, k), e, k in authoritative) == Push
    ensures forall k :: k in pulls <==> PlanOf(fold, Lookup(local, k), Lookup(remote, k), e, k in authoritative) == Pull
    ensures forall k :: k in conflicts <==> PlanOf(fold, Lookup(local, k), Lookup(remote, k), e, k in authoritative) == Conflict
    ensures DistinctKeys(pushes) && DistinctKeys(pulls)
  {
    pushes, pulls, conflicts := [], [], [];
    var keys := local.Keys + remote.Keys;
    assert forall k :: k !in keys ==> PlanOf(fold, Lookup(local, k), Lookup(remote, k), e, k in authoritative) == Skip;
    hide PlanOf;
    var rest := keys;
    while rest != {}
      invariant rest <= keys
      invariant forall k :: k in pushes <==> PlanOf(fold, Lookup(local, k), Lookup(remote, k), e, k in authoritative) == Push && k !in rest
      invariant forall k :: k in pulls <==> PlanOf(fold, Lookup(local, k), Lookup(remote, k), e, k in authoritative) == Pull && k !in rest
      invariant forall k :: k in conflicts <==> PlanOf(fold, Lookup(local, k), Lookup(remote, k), e, k in authoritative) == Conflict && k !in rest
      invariant DistinctKeys(pushes) && DistinctKeys(pulls)
      decreases rest
    {
      var key := Pick(rest);
      rest := rest - {key};
      match PlanOf(fold, Lookup(local, key), Lookup(remote, key), e, key in authoritative)
      case Skip =>
      case Push => pushes := pushes + [key];
      case Pull => pulls := pulls + [key];
      case Conflict => conflicts := conflicts + [key];
    }
  }

  /** Pull requests name card ids: a card comes down if it shares its id with a planned one. */
  ghost predicate Hit(cards: map<CardKey, Card>, pulls: seq<CardKey>, k: CardKey) {
    k in cards && exists p <- pulls :: p in cards && cards[p].cardId == cards[k].cardId
  }

  /** batch_pull by card id: every row that carries the id. */
  method LoadCard(server: Handler, id: int) returns (found: seq<CardKey>)
    ensures forall k :: k in found <==> k in server.cards && server.cards[k].cardId == id
    ensures DistinctKeys(found)
  {
    found := [];
    var rest := server.cards.Keys;
    while rest != {}
      invariant rest <= server.cards.Keys
      invariant forall k :: k in found <==> k in server.cards && server.cards[k].cardId == id && k !in rest
      invariant DistinctKeys(found)
      decreases rest
    {
      var k := Pick(rest);
      rest := rest - {k};
      if server.cards[k].cardId == id { found := found + [k]; }
    }
  }

  /** What has come down so far: the cards of `hit`, each applied to the card of its identity. */
  ghost predicate PulledTo(was: Local, cards: map<CardKey, Card>, hit: set<CardKey>, wallClock: nat, now: Local) {
    && now == was.(cards := now.cards) && DistinctIdentities(now) && now.cards.Keys == was.cards.Keys
    && (forall k: CardKey :: k.guid != "" && k in hit ==>
          k in cards && CardNamed(now, k) == PulledInto(CardNamed(was, k), cards[k], was.crt, wallClock))
    && (forall k: CardKey :: k.guid != "" && k !in hit ==> CardNamed(now, k) == CardNamed(was, k))
    && (forall c :: c in was.cards ==> now.cards[c].nid == was.cards[c].nid)
    && (forall c :: Identity(now, c) == Identity(was, c))
    && (forall c :: c in was.cards && Identity(was, c).guid == "" ==> now.cards[c] == was.cards[c])
  }

  ghost function HitBy(cards: map<CardKey, Card>, pulls: seq<CardKey>): set<CardKey> {
    set k | k in cards && Hit(cards, pulls, k)
  }

  function KeySet(keys: seq<CardKey>): set<CardKey> {
    set k | k in keys
  }

  /** One more planned pull brings down the cards that share its id. */
  lemma HitGrows(cards: map<CardKey, Card>, pulls: seq<CardKey>, p: CardKey, found: seq<CardKey>)
    requires p in cards && forall k :: k in found <==> k in cards && cards[k].cardId == cards[p].cardId
    ensures HitBy(cards, pulls + [p]) == HitBy(cards, pulls) + KeySet(found)
  {
    forall k | k in cards
      ensures Hit(cards, pulls + [p], k) <==> Hit(cards, pulls, k) || k in found
    {
      if k in found { assert p in pulls + [p]; }
      if q :| q in pulls && q in cards && cards[q].cardId == cards[k].cardId { assert q in pulls + [p]; }
    }
  }

  /** Applying a record twice is applying it once. */
  lemma PulledTwice(local: Option<LocalCard>, c: Card, crt: int, wallClock: nat)
    ensures PulledInto(PulledInto(local, c, crt, wallClock), c, crt, wallClock) == PulledInto(local, c, crt, wallClock)
  {
  }

  lemma PulledOneMore(was: Local, cards: map<CardKey, Card>, hit: set<CardKey>, k: CardKey, wallClock: nat, before: Local, after: Local)
    requires PulledTo(was, cards, hit, wallClock, before) && k in cards
    requires after == before.(cards := after.cards) && DistinctIdentities(after) && after.cards.Keys == before.cards.Keys
    requires k.guid != "" ==> CardNamed(after, k) == PulledInto(CardNamed(before, k), cards[k], was.crt, wallClock)
    requires forall q: CardKey :: q.guid != "" && q != k ==> CardNamed(after, q) == CardNamed(before, q)
    requires forall c :: c in before.cards ==> after.cards[c].nid == before.cards[c].nid
    requires forall c :: Identity(after, c) == Identity(before, c)
    requires forall c :: c in before.cards && (k.guid == "" || Identity(before, c) != k) ==> after.cards[c] == before.cards[c]
    ensures PulledTo(was, cards, hit + {k}, wallClock, after)
  {
    PulledTwice(CardNamed(was, k), cards[k], was.crt, wallClock);
    hide PulledInto;
    hide CardNamed;
    hide Identity;
    hide DistinctIdentities;
  }

  /** All planned pulls; a shared id brings down cards that were not planned. */
  method PullCards(col: Collection, server: Handler, pulls: seq<CardKey>, wallClock: nat)
    requires DistinctIdentities(col.State()) && forall k <- pulls :: k in server.cards
    modifies col`cards
    ensures PulledTo(old(col.State()), server.cards, HitBy(server.cards, pulls), wallClock, col.State())
  {
    ghost var was := col.State();
    assert HitBy(server.cards, pulls[..0]) == {};
    for i := 0 to |pulls|
      invariant PulledTo(was, server.cards, HitBy(server.cards, pulls[..i]), wallClock, col.State())
    {
      assert pulls[i] in pulls;
      assert pulls[..i + 1] == pulls[..i] + [pulls[i]];
      var found := LoadCard(server, server.cards[pulls[i]].cardId);
      HitGrows(server.cards, pulls[..i], pulls[i], found);
      PullFound(col, server, found, wallClock, was, HitBy(server.cards, pulls[..i]));
    }
    assert pulls[..|pulls|] == pulls;
  }

  /** Every record that came back for one id. */
  method PullFound(col: Collection, server: Handler, found: seq<CardKey>, wallClock: nat, ghost was: Local, ghost hit: set<CardKey>)
    requires PulledTo(was, server.cards, hit, wallClock, col.State()) && forall k <- found :: k in server.cards
    modifies col`cards
    ensures PulledTo(was, server.cards, hit + KeySet(found), wallClock, col.State())
  {
    hide PulledInto;
    hide CardNamed;
    hide Identity;
    assert hit + KeySet(found[..0]) == hit;
    for j := 0 to |found|
      invariant PulledTo(was, server.cards, hit + KeySet(found[..j]), wallClock, col.State())
    {
      assert found[j] in found;
      ghost var before := col.State();
      var _ := ApplyCard(col, found[j], server.cards[found[j]], wallClock);
      PulledOneMore(was, server.cards, hit + KeySet(found[..j]), found[j], wallClock, before, col.State());
      assert KeySet(found[..j + 1]) == KeySet(found[..j]) + {found[j]} by { assert found[..j + 1] == found[..j] + [found[j]]; }
      assert hit + KeySet(found[..j]) + {found[j]} == hit + KeySet(found[..j + 1]);
    }
    assert found[..|found|] == found;
  }

  // ------------------------------------------------------------------- uploads --

  ghost predicate DistinctPuts(cs: seq<CardPut>) {
    forall i, j :: 0 <= i < j < |cs| ==> cs[i].key != cs[j].key
  }

  /** The rows after uploads: each either stored or outranked; every other one untouched. */
  ghost predicate StoredAll(was: map<CardKey, Card>, cs: seq<CardPut>, now: int, cards: map<CardKey, Card>) {
    && (forall c <- cs :: c.key in cards && cards[c.key] == Stored(c, Lookup(was, c.key), now))
    && (forall k :: (forall c <- cs :: c.key != k) ==> Lookup(cards, k) == Lookup(was, k))
  }

  ghost predicate OnlyCards(was: Db, now: Db) {
    now == was.(cards := now.cards, tombstones := now.tombstones)
  }

  lemma CardStep(db: Db, c: CardPut, now: int)
    requires c.key.guid != ""
    ensures Apply(db, Event(now, CardAtom(c))).cards == db.cards[c.key := Stored(c, Lookup(db.cards, c.key), now)]
    ensures OnlyCards(db, Apply(db, Event(now, CardAtom(c))))
  {
    ServerSpec.ApplyCard(db, c, now);
    hide Apply;
  }

  lemma StoredAllExtends(was: map<CardKey, Card>, cs: seq<CardPut>, n: nat, now: int, cards: map<CardKey, Card>)
    requires DistinctPuts(cs) && n < |cs| && StoredAll(was, cs[..n], now, cards)
    ensures StoredAll(was, cs[..n + 1], now, cards[cs[n].key := Stored(cs[n], Lookup(cards, cs[n].key), now)])
  {
    hide Stored;
    assert cs[..n + 1] == cs[..n] + [cs[n]];
    forall c | c in cs[..n] ensures c.key != cs[n].key { }
    assert Lookup(cards, cs[n].key) == Lookup(was, cs[n].key);
    assert cs[n] in cs[..n + 1];
  }

  lemma {:induction false} PushedCards(db: Db, cs: seq<CardPut>, now: int)
    requires DistinctPuts(cs) && forall c <- cs :: c.key.guid != ""
    ensures StoredAll(db.cards, cs, now, Run(db, CardEvents(cs, now)).cards)
    ensures OnlyCards(db, Run(db, CardEvents(cs, now)))
  {
    hide Apply;
    hide Stored;
    if |cs| > 0 {
      var n := |cs| - 1;
      var h := CardEvents(cs, now);
      assert h[..n] == CardEvents(cs[..n], now);
      assert cs[n] in cs && forall c <- cs[..n] :: c in cs;
      PushedCards(db, cs[..n], now);
      hide StoredAll;
      CardStep(Run(db, h[..n]), cs[n], now);
      StoredAllExtends(db.cards, cs, n, now, Run(db, h[..n]).cards);
      assert cs[..n + 1] == cs;
    }
  }

  method Payload(col: Collection, keys: seq<CardKey>) returns (cs: seq<CardPut>)
    requires DistinctIdentities(col.State()) && DistinctKeys(keys)
    requires forall k <- keys :: k.guid != "" && CardNamed(col.State(), k).Some?
    ensures |cs| == |keys| && DistinctPuts(cs)
    ensures forall i :: 0 <= i < |keys| ==> CardNamed(col.State(), keys[i]).Some?
    ensures forall i :: 0 <= i < |keys| ==> cs[i] == Upload(keys[i], CardNamed(col.State(), keys[i]).value, col.crt)
  {
    cs := [];
    for i := 0 to |keys|
      invariant |cs| == i
      invariant forall j :: 0 <= j < i ==> CardNamed(col.State(), keys[j]).Some?
      invariant forall j :: 0 <= j < i ==> cs[j] == Upload(keys[j], CardNamed(col.State(), keys[j]).value, col.crt)
    {
      assert keys[i] in keys;
      var cid := FindCard(col, keys[i]);
      cs := cs + [Upload(keys[i], LocalCard(cid.value, col.cards[cid.value]), col.crt)];
    }
  }

  method PushBatch(server: Handler, cs: seq<CardPut>, now: int)
    requires now != GO_ZERO_TIME
    modifies server
    ensures server.State() == Run(old(server.State()), CardEvents(cs, now))
  {
    assert CardEvents(cs, now) == BatchEvents(Batch([], cs, [], [], [], []), false, now);
    hide Run;
    var _ := server.BatchPush(Batch([], cs, [], [], [], []), false, now);
  }

  /** All planned uploads, a batch at a time. */
  method PushCards(col: Collection, server: Handler, keys: seq<CardKey>, now: int) returns (ghost cs: seq<CardPut>)
    requires now != GO_ZERO_TIME && DistinctIdentities(col.State()) && DistinctKeys(keys)
    requires forall k <- keys :: k.guid != "" && CardNamed(col.State(), k).Some?
    modifies server
    ensures |cs| == |keys| && DistinctPuts(cs)
    ensures forall i :: 0 <= i < |keys| ==> CardNamed(col.State(), keys[i]).Some?
    ensures forall i :: 0 <= i < |keys| ==> cs[i] == Upload(keys[i], CardNamed(col.State(), keys[i]).value, col.crt)
    ensures server.State() == Run(old(server.State()), CardEvents(cs, now))
  {
    ghost var db := server.State();
    var payload := Payload(col, keys);
    cs := payload;
    var start := 0;
    assert Run(db, CardEvents(cs[..0], now)) == db;
    hide Run;
    while start < |payload|
      invariant 0 <= start <= |payload|
      invariant server.State() == Run(db, CardEvents(payload[..start], now))
    {
      var end := if start + BATCH_SIZE < |payload| then start + BATCH_SIZE else |payload|;
      PushBatch(server, payload[start..end], now);
      ChunksCompose(db, payload, start, end, now);
      start := end;
    }
    assert payload[..|payload|] == payload;
  }

  lemma ChunksCompose(db: Db, cs: seq<CardPut>, n: nat, end: nat, now: int)
    requires n <= end <= |cs|
    ensures Run(Run(db, CardEvents(cs[..n], now)), CardEvents(cs[n..end], now)) == Run(db, CardEvents(cs[..end], now))
  {
    hide Run;
    RunConcat(db, CardEvents(cs[..n], now), CardEvents(cs[n..end], now));
    assert CardEvents(cs[..n], now) + CardEvents(cs[n..end], now) == CardEvents(cs[..end], now);
  }

  predicate SharesId(cards: map<CardKey, Card>, p: CardKey, k: CardKey)
    requires k in cards
  {
    p in cards && p.guid != "" && cards[p].cardId == cards[k].cardId
  }

  /** Whether the record of `k` comes down: a planned pull has its card id. */
  ghost predicate ComesDown(fold: string -> string, e: Env, authoritative: set<CardKey>, l: Local, scope: set<string>,
                            cards: map<CardKey, Card>, listed: set<CardKey>, k: CardKey)
  {
    k in cards && exists p :: SharesId(cards, p, k) && PlanAt(fold, l, scope, cards, listed, e, authoritative, p) == Pull
  }

  /** Where ids are unique, exactly the cards planned for a pull come down. */
  lemma UniqueIdsPullThePlan(fold: string -> string, e: Env, authoritative: set<CardKey>, l: Local, scope: set<string>,
                             cards: map<CardKey, Card>, listed: set<CardKey>, k: CardKey)
    requires UniqueIds(cards) && k.guid != ""
    ensures ComesDown(fold, e, authoritative, l, scope, cards, listed, k)
       <==> PlanAt(fold, l, scope, cards, listed, e, authoritative, k) == Pull
  {
  }

  /** What a pass does to one logical card. */
  ghost predicate TakenToOutcome(fold: string -> string, e: Env, authoritative: set<CardKey>, l: Local, scope: set<string>,
                                 cards: map<CardKey, Card>, listed: set<CardKey>, k: CardKey, l': Local, cards': map<CardKey, Card>)
  {
    var p, v := PairOf(l, cards, k), ViewOf(l, scope, cards, listed, k);
    && Sees(v, p)
    && PairOf(l', cards', k)
       == OutcomeIn(fold, k, p, v, e, k in authoritative, l.crt, ComesDown(fold, e, authoritative, l, scope, cards, listed, k))
  }

  // What a pass does to a card, told by the two states and times alone.

  /** Both times are known, and neither is more than five minutes ahead of the manifest. */
  predicate KnownTimes(mod: int, clientModifiedAt: int, now: int) {
    0 < mod && 0 < clientModifiedAt && 0 < now && mod * SECOND <= now + MAX_FUTURE_SKEW && clientModifiedAt <= now + MAX_FUTURE_SKEW
  }

  /** The card is in another deck than Anki generates cards in, was studied, or is older than its last change. */
  predicate Touched(fold: string -> string, e: Env, c: int, row: CardRow, serverDeck: string) {
    || row.deck != e.defaultDeck || fold(serverDeck) == fold(row.deck)
    || row.scheduling.kind != 0 || row.scheduling.queue != 0 || row.scheduling.ivl != 0 || row.scheduling.reps != 0 || row.scheduling.lapses != 0
    || c <= 0 || row.nid <= 0 || !(row.mod - 1 <= c / 1000 <= row.mod + 1) || !(row.mod - 1 <= row.nid / 1000 <= row.mod + 1)
  }

  /** The server's row holds this card's deck and scheduling under the given id. */
  ghost predicate HoldsCard(card: Card, id: int, row: CardRow, crt: int, e: Env) {
    && card.cardId == id && card.deck == row.deck && card.scheduling == row.scheduling.(crt := crt) && card.modifiedAt == e.pushedAt
    && (row.mod * SECOND <= e.pushedAt + MAX_FUTURE_CLOCK_SKEW ==> card.clientModifiedAt == row.mod * SECOND)
  }

  /** A due day of one collection names the same calendar day in the other. */
  predicate SameDay(day: int, crt: int, day': int, crt': int) {
    day + crt / 86400 == day' + crt' / 86400
  }

  /** The local card holds the server's deck, scheduling and source time; review and interday learning days are converted. */
  ghost predicate TookCard(row': CardRow, row: CardRow, card: Card, crt: int) {
    var s, s' := card.scheduling, row'.scheduling;
    var shifted := s.crt != 0 && (s.queue == 2 || s.queue == 3);
    && row'.nid == row.nid && row'.ord == row.ord && row'.deck == card.deck
    && s' == s.(due := s'.due, odue := s'.odue, crt := crt)
    && (if shifted then SameDay(s.due, s.crt, s'.due, crt) else s'.due == s.due)
    && (if shifted && s.odid != 0 then SameDay(s.odue, s.crt, s'.odue, crt) else s'.odue == s.odue)
    && (0 < card.clientModifiedAt <= card.modifiedAt + MAX_FUTURE_SKEW && 0 < card.modifiedAt ==> row'.mod == card.clientModifiedAt / SECOND)
  }

  /**
   * A card the pass sees on both sides.  With the server's authority the collection
   * takes the row.  Otherwise the side that is a second or more later gives the other
   * deck and scheduling; between different decks only under newest-wins, where a
   * card untouched since Anki generated it gives way whatever its time.  Without a
   * winner nothing moves, and exactly a difference of decks is reported.
   */
  ghost predicate SharedCardDecided(fold: string -> string, e: Env, authority: bool, c: int, row: CardRow, card: Card, crt: int,
                                    row': CardRow, card': Card, reported: bool)
  {
    var known, ahead := KnownTimes(row.mod, card.clientModifiedAt, e.now), row.mod * SECOND - card.clientModifiedAt;
    var moved := row.deck != card.deck;
    var byTime := known && (moved ==> e.newestWins && Touched(fold, e, c, row, card.deck));
    && (authority || (moved && e.newestWins && !Touched(fold, e, c, row, card.deck)) ==>
        card' == card && TookCard(row', row, card, crt) && !reported)
    && (!authority && byTime && ahead <= -SECOND ==> card' == card && TookCard(row', row, card, crt) && !reported)
    && (!authority && byTime && ahead >= SECOND ==> row' == row && !reported && (e.now <= e.pushedAt ==> HoldsCard(card', card.cardId, row, crt, e)))
    && (!authority && ((byTime && -SECOND < ahead < SECOND) || (moved && !e.newestWins)) ==> row' == row && card' == card && (reported <==> moved))
  }

  lemma SharedPairDecided(fold: string -> string, e: Env, authority: bool, k: CardKey, c: int, row: CardRow, card: Card, crt: int, p': CardPair)
    requires var p := CardPair(Some(LocalCard(c, row)), Some(card));
      p' == OutcomeIn(fold, k, p, p, e, authority, crt, PlanOf(fold, p.local, EntryOfPair(p), e, authority) == Pull)
    ensures p'.local.Some? && p'.server.Some? && p'.local.value.cid == c
    ensures SharedCardDecided(fold, e, e.preferServer || authority, c, row, card, crt, p'.local.value.row, p'.server.value,
                              PlanOf(fold, Some(LocalCard(c, row)), Some(CardEntryOf(card)), e, authority) == Conflict)
  {
  }

  /** The card is among those the pass looks at, under this key. */
  ghost predicate IsShown(l: Local, scope: set<string>, c: int, k: CardKey) {
    && c in l.cards && l.cards[c].nid in l.notes && k == CardKey(l.notes[l.cards[c].nid].guid, l.cards[c].ord) && k.guid != ""
    && (scope == {} || InScope(l.cards[c].deck, scope))
  }

  /** What becomes of the cards of one key; a row that shares its id with another may also come down with that. */
  ghost predicate KeyDecided(fold: string -> string, e: Env, authoritative: set<CardKey>, l: Local, scope: set<string>,
                             cards: map<CardKey, Card>, listed: set<CardKey>, k: CardKey, l': Local, cards': map<CardKey, Card>, reported: bool)
  {
    && (forall c :: IsShown(l, scope, c, k) && k in cards && k in listed && (forall p :: p in cards && p != k ==> cards[p].cardId != cards[k].cardId) ==>
        c in l'.cards && k in cards'
        && SharedCardDecided(fold, e, e.preferServer || k in authoritative, c, l.cards[c], cards[k], l.crt, l'.cards[c], cards'[k], reported))
    && (forall c :: IsShown(l, scope, c, k) && k !in cards ==>
        && c in l'.cards && l'.cards[c] == l.cards[c] && !reported
        && (k in cards' <==> !e.preferServer && k !in authoritative)
        && (k in cards' ==> HoldsCard(cards'[k], c, l.cards[c], l.crt, e)))
    && ((forall c :: c in l.cards ==> Identity(l, c) != k) ==> !reported && (k in cards <==> k in cards') && (k in cards ==> cards'[k] == cards[k]))
  }

  lemma ShownOnBothSides(l: Local, scope: set<string>, cards: map<CardKey, Card>, listed: set<CardKey>, c: int, k: CardKey)
    requires DistinctIdentities(l) && IsShown(l, scope, c, k)
    ensures var card := if k in cards then Some(cards[k]) else None;
      && PairOf(l, cards, k) == CardPair(Some(LocalCard(c, l.cards[c])), card)
      && ViewOf(l, scope, cards, listed, k) == CardPair(Some(LocalCard(c, l.cards[c])), if k in listed then card else None)
  {
    assert HasIdentity(l, c, k);
    NamedCard(l, c, k);
    ShownCard(l, scope, k);
  }

  lemma NoneOfKey(l: Local, scope: set<string>, k: CardKey)
    requires forall c :: c in l.cards ==> Identity(l, c) != k
    ensures CardNamed(l, k) == None && CardNamed(Shown(l, scope), k) == None
  {
    var shown := Shown(l, scope);
    forall c ensures !HasIdentity(l, c, k) && !HasIdentity(shown, c, k) {
      if c in shown.cards { assert Identity(shown, c) == Identity(l, c); }
    }
  }

  lemma ShownKeyDecided(fold: string -> string, e: Env, authoritative: set<CardKey>, l: Local, scope: set<string>,
                        cards: map<CardKey, Card>, listed: set<CardKey>, c: int, k: CardKey, l': Local, cards': map<CardKey, Card>)
    requires DistinctIdentities(l) && DistinctIdentities(l') && IsShown(l, scope, c, k) && c in l'.cards && Identity(l', c) == k
    requires TakenToOutcome(fold, e, authoritative, l, scope, cards, listed, k, l', cards')
    ensures var reported := PlanAt(fold, l, scope, cards, listed, e, authoritative, k) == Conflict;
      && (k in cards && k in listed && (forall p :: p in cards && p != k ==> cards[p].cardId != cards[k].cardId) ==>
          k in cards' && SharedCardDecided(fold, e, e.preferServer || k in authoritative, c, l.cards[c], cards[k], l.crt, l'.cards[c], cards'[k], reported))
      && (k !in cards ==>
          && l'.cards[c] == l.cards[c] && !reported && (k in cards' <==> !e.preferServer && k !in authoritative)
          && (k in cards' ==> HoldsCard(cards'[k], c, l.cards[c], l.crt, e)))
  {
    ShownOnBothSides(l, scope, cards, listed, c, k);
    assert HasIdentity(l', c, k);
    NamedCard(l', c, k);
    hide DistinctIdentities;
    hide IsShown;
    hide CardNamed;
    if k in cards && k in listed && (forall p :: p in cards && p != k ==> cards[p].cardId != cards[k].cardId) {
      assert ComesDown(fold, e, authoritative, l, scope, cards, listed, k) <==> PlanAt(fold, l, scope, cards, listed, e, authoritative, k) == Pull by {
        assert SharesId(cards, k, k);
      }
      SharedPairDecided(fold, e, k in authoritative, k, c, l.cards[c], cards[k], l.crt, PairOf(l', cards', k));
    }
  }

  lemma KeyIsDecided(fold: string -> string, e: Env, authoritative: set<CardKey>, l: Local, scope: set<string>,
                     cards: map<CardKey, Card>, listed: set<CardKey>, k: CardKey, l': Local, cards': map<CardKey, Card>)
    requires DistinctIdentities(l) && DistinctIdentities(l') && l'.cards.Keys == l.cards.Keys && (forall c :: c in l.cards ==> Identity(l', c) == Identity(l, c))
    requires k.guid != "" && TakenToOutcome(fold, e, authoritative, l, scope, cards, listed, k, l', cards')
    ensures KeyDecided(fold, e, authoritative, l, scope, cards, listed, k, l', cards', PlanAt(fold, l, scope, cards, listed, e, authoritative, k) == Conflict)
  {
    hide TakenToOutcome;
    hide SharedCardDecided;
    hide HoldsCard;
    hide PlanAt;
    hide DistinctIdentities;
    forall c | IsShown(l, scope, c, k)
      ensures var reported := PlanAt(fold, l, scope, cards, listed, e, authoritative, k) == Conflict;
        && c in l'.cards
        && (k in cards && k in listed && (forall p :: p in cards && p != k ==> cards[p].cardId != cards[k].cardId) ==>
            k in cards' && SharedCardDecided(fold, e, e.preferServer || k in authoritative, c, l.cards[c], cards[k], l.crt, l'.cards[c], cards'[k], reported))
        && (k !in cards ==>
            && l'.cards[c] == l.cards[c] && !reported && (k in cards' <==> !e.preferServer && k !in authoritative)
            && (k in cards' ==> HoldsCard(cards'[k], c, l.cards[c], l.crt, e)))
    {
      assert Identity(l, c) == k;
      ShownKeyDecided(fold, e, authoritative, l, scope, cards, listed, c, k, l', cards');
    }
    if forall c :: c in l.cards ==> Identity(l, c) != k {
      UnheldKeyDecided(fold, e, authoritative, l, scope, cards, listed, k, l', cards');
    }
  }

  lemma UnheldKeyDecided(fold: string -> string, e: Env, authoritative: set<CardKey>, l: Local, scope: set<string>,
                         cards: map<CardKey, Card>, listed: set<CardKey>, k: CardKey, l': Local, cards': map<CardKey, Card>)
    requires TakenToOutcome(fold, e, authoritative, l, scope, cards, listed, k, l', cards') && forall c :: c in l.cards ==> Identity(l, c) != k
    ensures PlanAt(fold, l, scope, cards, listed, e, authoritative, k) != Conflict
    ensures (k in cards <==> k in cards') && (k in cards ==> cards'[k] == cards[k])
  {
    NoneOfKey(l, scope, k);
    hide ComesDown;
    assert PairOf(l', cards', k).server == PairOf(l, cards, k).server;
  }

  lemma AllDecided(fold: string -> string, e: Env, authoritative: set<CardKey>, l: Local, scope: set<string>, cards: map<CardKey, Card>,
                   listed: set<CardKey>, conflicts: seq<CardKey>, l': Local, cards': map<CardKey, Card>)
    requires DistinctIdentities(l) && DistinctIdentities(l') && l'.cards.Keys == l.cards.Keys && (forall c :: c in l.cards ==> Identity(l', c) == Identity(l, c))
    requires forall k: CardKey :: k.guid != "" ==> TakenToOutcome(fold, e, authoritative, l, scope, cards, listed, k, l', cards')
    requires forall k: CardKey :: k.guid != "" ==> (k in conflicts <==> PlanAt(fold, l, scope, cards, listed, e, authoritative, k) == Conflict)
    ensures forall k: CardKey :: k.guid != "" ==> KeyDecided(fold, e, authoritative, l, scope, cards, listed, k, l', cards', k in conflicts)
  {
    hide *;
    forall k: CardKey | k.guid != ""
      ensures KeyDecided(fold, e, authoritative, l, scope, cards, listed, k, l', cards', k in conflicts)
    {
      KeyIsDecided(fold, e, authoritative, l, scope, cards, listed, k, l', cards');
    }
  }

  /**
   * One card pass with no other writer, over the decks of `scope` and the cards the
   * manifest lists, takes every logical card to its outcome and reports exactly the
   * structural mismatches no clock decides.
   */
  method SyncCardsOnce(col: Collection, server: Handler, remote: map<CardKey, CardEntry>, scope: set<string>, fold: string -> string,
                       e: Env, authoritative: set<CardKey>)
    returns (conflicts: seq<CardKey>)
    requires DistinctIdentities(col.State()) && e.pushedAt != GO_ZERO_TIME
    requires forall k :: k in server.cards ==> k.guid != ""
    requires CardsListed(remote, server.cards)
    modifies col`cards, server
    ensures DistinctIdentities(col.State()) && col.cards.Keys == old(col.cards.Keys)
    ensures forall c :: c in old(col.cards) ==> col.cards[c].nid == old(col.cards)[c].nid && Identity(col.State(), c) == Identity(old(col.State()), c)
    ensures forall c :: c in old(col.cards) && Identity(old(col.State()), c).guid == "" ==> col.cards[c] == old(col.cards)[c]
    ensures OnlyCards(old(server.State()), server.State()) && forall k :: k in server.cards ==> k.guid != ""
    ensures forall k: CardKey :: k.guid != "" ==>
      TakenToOutcome(fold, e, authoritative, old(col.State()), scope, old(server.cards), remote.Keys, k, col.State(), server.cards)
    ensures forall k: CardKey :: k.guid != "" ==>
      (k in conflicts <==> PlanAt(fold, old(col.State()), scope, old(server.cards), remote.Keys, e, authoritative, k) == Conflict)
    ensures forall k: CardKey :: k.guid != "" ==>
      KeyDecided(fold, e, authoritative, old(col.State()), scope, old(server.cards), remote.Keys, k, col.State(), server.cards, k in conflicts)
  {
    ghost var l, cards := col.State(), server.cards;
    var pushes, pulls;
    pushes, pulls, conflicts := PlanPass(col, remote, scope, cards, fold, e, authoritative);
    hide PlanOf;
    hide PlanAt;
    hide PulledTo;
    hide StoredAll;
    hide Run;
    PullCards(col, server, pulls, e.wallClock);
    ghost var mid := col.State();
    PulledMeans(l, cards, HitBy(cards, pulls), e.wallClock, mid, pushes);
    ghost var cs;
    cs := PushCards(col, server, pushes, e.pushedAt);
    UploadsAreNamed(pushes, cs);
    PushedCards(old(server.State()), cs, e.pushedAt);
    KeysStayNamed(cards, cs, e.pushedAt, server.cards);
    hide OutcomeIn;
    hide ComesDown;
    hide DistinctIdentities;
    hide CardsListed;
    forall k: CardKey | k.guid != ""
      ensures TakenToOutcome(fold, e, authoritative, l, scope, cards, remote.Keys, k, mid, server.cards)
    {
      ViewIsSeen(l, scope, cards, remote.Keys, k);
      HitsComeDown(fold, l, scope, cards, remote.Keys, e, authoritative, pulls, k);
      OutcomeFromLists(fold, l, scope, cards, remote.Keys, e, authoritative, pushes, pulls, mid, cs, server.cards, k);
    }
    AllDecided(fold, e, authoritative, l, scope, cards, remote.Keys, conflicts, mid, server.cards);
  }

  /** What pulls leave of the collection around the cards they change. */
  lemma PulledMeans(l: Local, cards: map<CardKey, Card>, hit: set<CardKey>, wallClock: nat, l': Local, pushes: seq<CardKey>)
    requires PulledTo(l, cards, hit, wallClock, l') && forall k <- pushes :: k.guid != "" && CardNamed(l, k).Some?
    ensures l' == l.(cards := l'.cards) && DistinctIdentities(l') && l'.cards.Keys == l.cards.Keys
    ensures forall c :: c in l.cards ==> l'.cards[c].nid == l.cards[c].nid && Identity(l', c) == Identity(l, c)
    ensures forall c :: c in l.cards && Identity(l, c).guid == "" ==> l'.cards[c] == l.cards[c]
    ensures forall k <- pushes :: CardNamed(l', k).Some?
  {
    forall k | k in pushes
      ensures CardNamed(l', k).Some?
    {
      assert k in hit || k !in hit;
    }
  }

  lemma UploadsAreNamed(pushes: seq<CardKey>, cs: seq<CardPut>)
    requires |cs| == |pushes| && (forall k <- pushes :: k.guid != "") && forall i :: 0 <= i < |cs| ==> cs[i].key == pushes[i]
    ensures forall c <- cs :: c.key.guid != ""
  {
    forall c | c in cs
      ensures c.key.guid != ""
    {
      var i :| 0 <= i < |cs| && cs[i] == c;
      assert pushes[i] in pushes;
    }
  }

  lemma KeysStayNamed(was: map<CardKey, Card>, cs: seq<CardPut>, now: int, cards: map<CardKey, Card>)
    requires StoredAll(was, cs, now, cards) && (forall k :: k in was ==> k.guid != "") && forall c <- cs :: c.key.guid != ""
    ensures forall k :: k in cards ==> k.guid != ""
  {
    forall k | k in cards
      ensures k.guid != ""
    {
      if forall c <- cs :: c.key != k { assert Lookup(cards, k) == Lookup(was, k); }
    }
  }

  lemma HitsComeDown(fold: string -> string, l: Local, scope: set<string>, cards: map<CardKey, Card>, listed: set<CardKey>, e: Env,
                     authoritative: set<CardKey>, pulls: seq<CardKey>, k: CardKey)
    requires forall p <- pulls :: p in cards
    requires forall p: CardKey :: p in cards ==> p.guid != ""
    requires forall p: CardKey :: p.guid != "" ==> (p in pulls <==> PlanAt(fold, l, scope, cards, listed, e, authoritative, p) == Pull)
    ensures k in HitBy(cards, pulls) <==> ComesDown(fold, e, authoritative, l, scope, cards, listed, k)
  {
    hide PlanAt;
    if p :| k in cards && SharesId(cards, p, k) && PlanAt(fold, l, scope, cards, listed, e, authoritative, p) == Pull {
      assert p in pulls && Hit(cards, pulls, k);
    }
    if k in cards && Hit(cards, pulls, k) {
      var p :| p in pulls && p in cards && cards[p].cardId == cards[k].cardId;
      assert PlanAt(fold, l, scope, cards, listed, e, authoritative, p) == Pull;
    }
  }

  method PlanPass(col: Collection, remote: map<CardKey, CardEntry>, scope: set<string>, ghost cards: map<CardKey, Card>,
                  fold: string -> string, e: Env, authoritative: set<CardKey>)
    returns (pushes: seq<CardKey>, pulls: seq<CardKey>, conflicts: seq<CardKey>)
    requires DistinctIdentities(col.State()) && (forall k :: k in cards ==> k.guid != "") && CardsListed(remote, cards)
    ensures DistinctKeys(pushes) && DistinctKeys(pulls)
    ensures forall k <- pulls :: k in cards
    ensures forall k <- pushes :: k.guid != "" && CardNamed(col.State(), k).Some?
    ensures forall k: CardKey :: k.guid != "" ==>
      var plan := PlanAt(fold, col.State(), scope, cards, remote.Keys, e, authoritative, k);
      && (k in pushes <==> plan == Push) && (k in pulls <==> plan == Pull) && (k in conflicts <==> plan == Conflict)
  {
    ghost var l := col.State();
    ShownIsDistinct(l, scope);
    var local := CardManifest(Shown(col.State(), scope));
    pushes, pulls, conflicts := PlanCards(fold, local, remote, e, authoritative);
    assert forall k :: Lookup(remote, k) == EntryOfPair(ViewOf(l, scope, cards, remote.Keys, k));
    assert forall k: CardKey :: k.guid != "" ==> Lookup(local, k) == ViewOf(l, scope, cards, remote.Keys, k).local;
    forall k | k in pushes
      ensures k.guid != "" && CardNamed(l, k).Some?
    {
      ShownCard(l, scope, if k.guid == "" then CardKey("-", 0) else k);
    }
  }

  lemma OutcomeFromLists(fold: string -> string, l: Local, scope: set<string>, cards: map<CardKey, Card>, listed: set<CardKey>, e: Env,
                         authoritative: set<CardKey>, pushes: seq<CardKey>, pulls: seq<CardKey>, l': Local, cs: seq<CardPut>,
                         cards': map<CardKey, Card>, k: CardKey)
    requires k.guid != "" && Sees(ViewOf(l, scope, cards, listed, k), PairOf(l, cards, k))
    requires k in pushes <==> PlanAt(fold, l, scope, cards, listed, e, authoritative, k) == Push
    requires forall x <- pushes :: CardNamed(l, x).Some?
    requires PulledTo(l, cards, HitBy(cards, pulls), e.wallClock, l')
    requires |cs| == |pushes|
    requires forall i :: 0 <= i < |pushes| ==> CardNamed(l', pushes[i]).Some?
    requires forall i :: 0 <= i < |pushes| ==> cs[i] == Upload(pushes[i], CardNamed(l', pushes[i]).value, l.crt)
    requires StoredAll(cards, cs, e.pushedAt, cards')
    ensures PairOf(l', cards', k)
         == OutcomeIn(fold, k, PairOf(l, cards, k), ViewOf(l, scope, cards, listed, k), e, k in authoritative, l.crt, k in HitBy(cards, pulls))
  {
    hide PlanOf;
    hide Shown;
    hide Hit;
    hide Pulled;
    hide Stored;
    if k in pushes {
      var i :| 0 <= i < |pushes| && pushes[i] == k;
      assert cs[i] in cs && cs[i].key == k;
    } else {
      forall c | c in cs ensures c.key != k {
        var i :| 0 <= i < |cs| && cs[i] == c;
        assert pushes[i] in pushes;
      }
      assert Lookup(cards', k) == Lookup(cards, k);
    }
  }

  /**
   * What a pass does to a server card outside the routes that the collection shows:
   * the row survives if and only if its source time is strictly later than the
   * copy's; otherwise it takes the copy's deck and scheduling, under its own id.
   */
  lemma PassOverwritesHiddenCardUnlessLater(fold: string -> string, e: Env, authoritative: set<CardKey>, l: Local, scope: set<string>,
                                            cards: map<CardKey, Card>, listed: set<CardKey>, k: CardKey, l': Local, cards': map<CardKey, Card>)
    requires TakenToOutcome(fold, e, authoritative, l, scope, cards, listed, k, l', cards')
    requires CardNamed(Shown(l, scope), k).Some? && k in cards && k !in listed && k !in authoritative && !e.preferServer
    requires !ComesDown(fold, e, authoritative, l, scope, cards, listed, k)
    ensures k in cards' && CardNamed(l', k) == CardNamed(l, k) == CardNamed(Shown(l, scope), k)
    ensures var row, at := CardNamed(l, k).value.row, UtcWriteTime(e.pushedAt, CardNamed(l, k).value.row.mod * SECOND);
      cards'[k] == if cards[k].clientModifiedAt > at then cards[k]
                   else Card(cards[k].cardId, row.deck, row.scheduling.(crt := l.crt), e.pushedAt, at)
  {
    HiddenCardIsOverwrittenUnlessLater(fold, k, PairOf(l, cards, k), ViewOf(l, scope, cards, listed, k), e, l.crt);
  }
}
