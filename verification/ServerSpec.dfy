// The server as a state machine for one user: what one request, or one item of
// a batch, does to the tables (internal/handler/upsert.go, notes.go, decks.go,
// notetypes.go, cards.go, reviews.go, tombstone.go, immersion.go).

module ServerSpec {
  import opened Prelude
  import opened Clock

  datatype Stamped<T> = Stamped(value: T, modifiedAt: int)

  /** The tables.  Card rows live under the partial unique index (note_guid, ord). */
  datatype Db = Db(
    records: map<GuardedRef, Record>,
    cards: map<CardKey, Card>,
    reviews: map<int, Stamped<Review>>,
    studyDays: map<StudyKey, Stamped<Counters>>,
    tombstones: map<Ref, int>)

  const EMPTY_DB := Db(map[], map[], map[], map[], map[])

  // ----------------------------------------------------------------- atoms --

  datatype Put = Put(ref: GuardedRef, content: Content, base: Digest, clientModifiedAt: int)

  datatype CardPut = CardPut(cardId: int, key: CardKey, deck: string, scheduling: Scheduling, clientModifiedAt: int)

  datatype ReviewPut = ReviewPut(reviewId: int, review: Review)

  datatype StudyPut = StudyPut(key: StudyKey, counters: Counters)

  /** A validated Immersion request; `modelId` is the notetype the lookup by name chose. */
  datatype Immersion = Immersion(
    deck: string, deckContent: Content, createDeck: bool,
    modelId: int, notetypeContent: Content,
    guid: string, fields: seq<string>, tags: seq<string>,
    cardId: int, ord: int, scheduling: Scheduling, clientModifiedAt: int)

  datatype Atom =
    | PutAtom(put: Put, force: bool)
    | CardAtom(card: CardPut)
    | ReviewAtom(review: ReviewPut)
    | StudyAtom(study: StudyPut)
    | DeleteAtom(ref: Ref)
    | ImmersionAtom(request: Immersion)

  /** One atom executed at server time `at`. */
  datatype Event = Event(at: int, atom: Atom)

  // ------------------------------------------------------------ single steps --

  /** The rows one atom inserts or replaces, and the tombstones it clears. */
  datatype Writes = Writes(
    records: map<GuardedRef, Record>, cards: map<CardKey, Card>,
    reviews: map<int, Stamped<Review>>, studyDays: map<StudyKey, Stamped<Counters>>,
    clear: set<Ref>)

  const NO_WRITES := Writes(map[], map[], map[], map[], {})

  function Overlay(db: Db, w: Writes): Db {
    Db(db.records + w.records, db.cards + w.cards, db.reviews + w.reviews,
       db.studyDays + w.studyDays, db.tombstones - w.clear)
  }

  /** Optimistic concurrency: the stored version is the base, or already the content pushed. */
  predicate Accepts(db: Db, p: Put, force: bool) {
    || force
    || p.ref !in db.records
    || DigestOf(db.records[p.ref].content) == p.base
    || DigestOf(db.records[p.ref].content) == DigestOf(p.content)
  }

  function PutWrites(db: Db, p: Put, force: bool, now: int): Writes {
    if !Accepts(db, p, force) then NO_WRITES
    else
      NO_WRITES.(records := map[p.ref := Record(p.content, now, UtcWriteTime(now, p.clientModifiedAt))],
                 clear := {p.ref})
  }

  /** A stored card with a strictly later source time silently wins. */
  predicate CardAccepts(db: Db, c: CardPut, now: int) {
    c.key !in db.cards || db.cards[c.key].clientModifiedAt <= UtcWriteTime(now, c.clientModifiedAt)
  }

  /** The first writer's card id stays canonical. */
  function CanonicalCardId(db: Db, key: CardKey, proposed: int): int {
    if key in db.cards then db.cards[key].cardId else proposed
  }

  /** A blank guid is no logical identity; the batch handler skips it. */
  function CardWrites(db: Db, c: CardPut, now: int): Writes {
    if c.key.guid == "" || !CardAccepts(db, c, now) then NO_WRITES
    else
      var id := CanonicalCardId(db, c.key, c.cardId);
      NO_WRITES.(cards := map[c.key := Card(id, c.deck, c.scheduling, now, UtcWriteTime(now, c.clientModifiedAt))],
                 clear := {CardRef(id)})
  }

  function ReviewWrites(db: Db, r: ReviewPut, now: int): Writes {
    if r.reviewId in db.reviews then NO_WRITES
    else NO_WRITES.(reviews := map[r.reviewId := Stamped(r.review, now)])
  }

  function StudyWrites(db: Db, s: StudyPut, now: int): Writes {
    var merged := if s.key in db.studyDays then MaxCounters(db.studyDays[s.key].value, s.counters) else s.counters;
    NO_WRITES.(studyDays := map[s.key := Stamped(merged, now)])
  }

  predicate DeckMissing(db: Db, q: Immersion) {
    !q.createDeck && DeckRef(q.deck) !in db.records
  }

  /** The create-only transaction: every insert keeps what is already there. */
  function ImmersionWrites(db: Db, q: Immersion, now: int): Writes {
    if DeckMissing(db, q) then NO_WRITES
    else
      var at := UtcWriteTime(now, q.clientModifiedAt);
      var key := CardKey(q.guid, q.ord);
      Writes(
        Absent(db, DeckRef(q.deck), Record(q.deckContent, now, at)) +
        Absent(db, NotetypeRef(q.modelId), Record(q.notetypeContent, now, at)) +
        Absent(db, NoteRef(q.guid), Record(NoteContent(q.modelId, q.fields, q.tags), now, at)),
        if key in db.cards then map[] else map[key := Card(q.cardId, q.deck, q.scheduling, now, at)],
        map[], map[],
        {DeckRef(q.deck), NotetypeRef(q.modelId), NoteRef(q.guid), CardRef(CanonicalCardId(db, key, q.cardId))})
  }

  /** INSERT ... ON CONFLICT DO NOTHING. */
  function Absent(db: Db, r: GuardedRef, row: Record): map<GuardedRef, Record> {
    if r in db.records then map[] else map[r := row]
  }

  function WithoutCardId(cards: map<CardKey, Card>, id: int): map<CardKey, Card> {
    map k | k in cards && cards[k].cardId != id :: cards[k]
  }

  function DeleteResource(db: Db, r: Ref, now: int): Db {
    db.(cards := if r.CardRef? then WithoutCardId(db.cards, r.cardId) else db.cards,
        records := if r.CardRef? then db.records else db.records - {r},
        tombstones := db.tombstones[r := now])
  }

  function WritesOf(db: Db, e: Event): Writes {
    match e.atom
    case PutAtom(p, force) => PutWrites(db, p, force, e.at)
    case CardAtom(c) => CardWrites(db, c, e.at)
    case ReviewAtom(r) => ReviewWrites(db, r, e.at)
    case StudyAtom(s) => StudyWrites(db, s, e.at)
    case DeleteAtom(r) => NO_WRITES
    case ImmersionAtom(q) => ImmersionWrites(db, q, e.at)
  }

  function Apply(db: Db, e: Event): Db {
    if e.atom.DeleteAtom? then DeleteResource(db, e.atom.ref, e.at) else Overlay(db, WritesOf(db, e))
  }

  // What each kind of atom amounts to, without the detour over a write set.

  lemma ApplyPut(db: Db, p: Put, force: bool, now: int)
    ensures Apply(db, Event(now, PutAtom(p, force))) ==
      if Accepts(db, p, force)
      then db.(records := db.records[p.ref := Record(p.content, now, UtcWriteTime(now, p.clientModifiedAt))],
               tombstones := db.tombstones - {p.ref})
      else db
  {
  }

  lemma ApplyCard(db: Db, c: CardPut, now: int)
    ensures var id := CanonicalCardId(db, c.key, c.cardId);
      Apply(db, Event(now, CardAtom(c))) ==
      if c.key.guid != "" && CardAccepts(db, c, now)
      then db.(cards := db.cards[c.key := Card(id, c.deck, c.scheduling, now, UtcWriteTime(now, c.clientModifiedAt))],
               tombstones := db.tombstones - {CardRef(id)})
      else db
  {
  }

  lemma ApplyReview(db: Db, r: ReviewPut, now: int)
    ensures Apply(db, Event(now, ReviewAtom(r))) ==
      if r.reviewId in db.reviews then db else db.(reviews := db.reviews[r.reviewId := Stamped(r.review, now)])
  {
  }

  lemma ApplyStudy(db: Db, s: StudyPut, now: int)
    ensures Apply(db, Event(now, StudyAtom(s))) ==
      db.(studyDays := db.studyDays[s.key := Stamped(
        if s.key in db.studyDays then MaxCounters(db.studyDays[s.key].value, s.counters) else s.counters, now)])
  {
  }

  lemma ApplyImmersion(db: Db, q: Immersion, now: int)
    requires !DeckMissing(db, q)
    ensures var key, w := CardKey(q.guid, q.ord), ImmersionWrites(db, q, now);
      Apply(db, Event(now, ImmersionAtom(q))) ==
      db.(records := db.records + w.records,
          cards := if key in db.cards then db.cards
                   else db.cards[key := Card(q.cardId, q.deck, q.scheduling, now, UtcWriteTime(now, q.clientModifiedAt))],
          tombstones := db.tombstones - {DeckRef(q.deck), NotetypeRef(q.modelId), NoteRef(q.guid),
                                         CardRef(CanonicalCardId(db, key, q.cardId))})
  {
  }

  /** The three guarded inserts of the transaction, one after the other. */
  lemma ImmersionRecords(db: Db, q: Immersion, now: int)
    requires !DeckMissing(db, q)
    ensures var at := UtcWriteTime(now, q.clientModifiedAt);
      db.records + ImmersionWrites(db, q, now).records ==
      db.records + Absent(db, DeckRef(q.deck), Record(q.deckContent, now, at))
                 + Absent(db, NotetypeRef(q.modelId), Record(q.notetypeContent, now, at))
                 + Absent(db, NoteRef(q.guid), Record(NoteContent(q.modelId, q.fields, q.tags), now, at))
  {
  }

  /** A run of the server, the latest event last. */
  function Run(db: Db, h: seq<Event>): Db {
    if |h| == 0 then db else Apply(Run(db, h[..|h| - 1]), h[|h| - 1])
  }

  lemma {:induction false} RunConcat(db: Db, h1: seq<Event>, h2: seq<Event>)
    ensures Run(db, h1 + h2) == Run(Run(db, h1), h2)
  {
    hide Apply;
    if |h2| == 0 {
      assert h1 + h2 == h1;
    } else {
      var h := h1 + h2;
      assert h[..|h| - 1] == h1 + h2[..|h2| - 1];
      RunConcat(db, h1, h2[..|h2| - 1]);
    }
  }

  // ---------------------------------------------------------------- batches --

  datatype Batch = Batch(
    notes: seq<Put>, cards: seq<CardPut>, reviews: seq<ReviewPut>, studyDays: seq<StudyPut>,
    notetypes: seq<Put>, decks: seq<Put>)

  function PutEvents(ps: seq<Put>, force: bool, now: int): (h: seq<Event>)
    ensures |h| == |ps|
  {
    seq(|ps|, i requires 0 <= i < |ps| => Event(now, PutAtom(ps[i], force)))
  }

  function CardEvents(cs: seq<CardPut>, now: int): (h: seq<Event>)
    ensures |h| == |cs|
  {
    seq(|cs|, i requires 0 <= i < |cs| => Event(now, CardAtom(cs[i])))
  }

  function ReviewEvents(rs: seq<ReviewPut>, now: int): (h: seq<Event>)
    ensures |h| == |rs|
  {
    seq(|rs|, i requires 0 <= i < |rs| => Event(now, ReviewAtom(rs[i])))
  }

  function StudyEvents(ss: seq<StudyPut>, now: int): (h: seq<Event>)
    ensures |h| == |ss|
  {
    seq(|ss|, i requires 0 <= i < |ss| => Event(now, StudyAtom(ss[i])))
  }

  function DeleteEvents(rs: seq<Ref>, now: int): (h: seq<Event>)
    ensures |h| == |rs|
  {
    seq(|rs|, i requires 0 <= i < |rs| => Event(now, DeleteAtom(rs[i])))
  }

  predicate BadReviews(rs: seq<ReviewPut>) {
    exists r <- rs :: r.reviewId <= 0
  }

  /** How many study days are written before one without a deck name is refused. */
  function StudyPrefix(ss: seq<StudyPut>): (n: nat)
    ensures n <= |ss|
    ensures forall i :: 0 <= i < n ==> ss[i].key.deck != ""
    ensures n < |ss| ==> ss[n].key.deck == ""
  {
    if |ss| == 0 || ss[0].key.deck == "" then 0 else 1 + StudyPrefix(ss[1..])
  }

  predicate BatchRefused(b: Batch) {
    BadReviews(b.reviews) || StudyPrefix(b.studyDays) < |b.studyDays|
  }

  /**
   * Everything a batch writes, in the handler's order.  A refused batch is not
   * rolled back: what precedes the offending item has been written.
   */
  function BatchEvents(b: Batch, force: bool, now: int): seq<Event> {
    var h1 := PutEvents(b.notes, force, now) + CardEvents(b.cards, now);
    if BadReviews(b.reviews) then h1
    else
      var n := StudyPrefix(b.studyDays);
      var h2 := h1 + ReviewEvents(b.reviews, now) + StudyEvents(b.studyDays[..n], now);
      if n < |b.studyDays| then h2
      else h2 + PutEvents(b.notetypes, force, now) + PutEvents(b.decks, force, now)
  }

  /** The puts of a list that are returned as conflicts, each judged at its turn. */
  function Conflicts(db: Db, ps: seq<Put>, force: bool, now: int): seq<Put> {
    if |ps| == 0 then []
    else
      var before := Run(db, PutEvents(ps[..|ps| - 1], force, now));
      var p := ps[|ps| - 1];
      Conflicts(db, ps[..|ps| - 1], force, now) + (if Accepts(before, p, force) then [] else [p])
  }

  function AcceptedCards(db: Db, cs: seq<CardPut>, now: int): nat {
    if |cs| == 0 then 0
    else
      var before := Run(db, CardEvents(cs[..|cs| - 1], now));
      var c := cs[|cs| - 1];
      AcceptedCards(db, cs[..|cs| - 1], now) + (if c.key.guid != "" && CardAccepts(before, c, now) then 1 else 0)
  }

  /** The reviews of a request whose stored digest is not their own. */
  function Collisions(db: Db, rs: seq<ReviewPut>): seq<ReviewPut> {
    if |rs| == 0 then []
    else
      var r := rs[|rs| - 1];
      Collisions(db, rs[..|rs| - 1]) +
      (if r.reviewId in db.reviews && ReviewDigestOf(db.reviews[r.reviewId].value) == ReviewDigestOf(r.review) then [] else [r])
  }

  // --------------------------------------------------------------- manifest --

  datatype Entry = Entry(digest: Digest, modifiedAt: int, clientModifiedAt: int)

  datatype CardEntry = CardEntry(cardId: int, deck: string, modifiedAt: int, clientModifiedAt: int)

  datatype ReviewEntry = ReviewEntry(digest: ReviewDigest, deck: string, modifiedAt: int)

  datatype Manifest = Manifest(
    records: map<GuardedRef, Entry>,
    cards: map<CardKey, CardEntry>,
    reviews: map<int, ReviewEntry>,
    studyDays: map<StudyKey, Stamped<Counters>>,
    tombstones: map<Ref, int>,
    serverTime: int)

  function EntryOf(r: Record): Entry {
    Entry(DigestOf(r.content), r.modifiedAt, r.clientModifiedAt)
  }

  function CardEntryOf(c: Card): CardEntry {
    CardEntry(c.cardId, c.deck, c.modifiedAt, c.clientModifiedAt)
  }

  function ReviewEntryOf(r: Stamped<Review>): ReviewEntry {
    ReviewEntry(ReviewDigestOf(r.value), r.value.deck, r.modifiedAt)
  }

  predicate Changed(modifiedAt: int, since: Option<int>) {
    since.Some? ==> modifiedAt > since.value
  }

  function ManifestOf(db: Db, since: Option<int>, now: int): Manifest {
    Manifest(
      map r | r in db.records && Changed(db.records[r].modifiedAt, since) :: EntryOf(db.records[r]),
      map k | k in db.cards && Changed(db.cards[k].modifiedAt, since) :: CardEntryOf(db.cards[k]),
      map i | i in db.reviews && Changed(db.reviews[i].modifiedAt, since) :: ReviewEntryOf(db.reviews[i]),
      map k | k in db.studyDays && Changed(db.studyDays[k].modifiedAt, since) :: db.studyDays[k],
      map r | r in db.tombstones && Changed(db.tombstones[r], since) :: db.tombstones[r],
      now)
  }

  predicate Since(modifiedAt: int, since: Option<int>) {
    since.None? || since.value < modifiedAt
  }

  /** Exactly the rows and tombstones written after `since`, each with what planning and routing look at. */
  ghost predicate Tells(m: Manifest, db: Db, since: Option<int>) {
    && (forall r: GuardedRef :: r in m.records <==> r in db.records && Since(db.records[r].modifiedAt, since))
    && (forall r :: r in m.records ==>
        m.records[r] == Entry(DigestOf(db.records[r].content), db.records[r].modifiedAt, db.records[r].clientModifiedAt))
    && (forall k :: k in m.cards <==> k in db.cards && Since(db.cards[k].modifiedAt, since))
    && (forall k :: k in m.cards ==>
        m.cards[k] == CardEntry(db.cards[k].cardId, db.cards[k].deck, db.cards[k].modifiedAt, db.cards[k].clientModifiedAt))
    && (forall i :: i in m.reviews <==> i in db.reviews && Since(db.reviews[i].modifiedAt, since))
    && (forall i :: i in m.reviews ==>
        var v := db.reviews[i].value;
        m.reviews[i] == ReviewEntry(ReviewDigest(v.guid, v.ord, v.body), v.deck, db.reviews[i].modifiedAt))
    && (forall k :: k in m.studyDays <==> k in db.studyDays && Since(db.studyDays[k].modifiedAt, since))
    && (forall k :: k in m.studyDays ==> m.studyDays[k] == db.studyDays[k])
    && (forall r :: r in m.tombstones <==> r in db.tombstones && Since(db.tombstones[r], since))
    && (forall r :: r in m.tombstones ==> m.tombstones[r] == db.tombstones[r])
  }

  lemma ManifestTells(db: Db, since: Option<int>, now: int)
    ensures Tells(ManifestOf(db, since, now), db, since) && ManifestOf(db, since, now).serverTime == now
  {
  }

  /** A manifest lists some guarded rows, each as it stands. */
  ghost predicate RecordsListed(remote: map<GuardedRef, Entry>, records: map<GuardedRef, Record>) {
    forall r :: r in remote ==> r in records && remote[r] == EntryOf(records[r])
  }
}
