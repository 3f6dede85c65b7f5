// The handlers themselves, over mutable tables.  Every method is proved to take
// the tables from one state of the specification to the next.

module Server {
  import opened Prelude
  import opened Clock
  import opened ServerSpec

  /** Accepted counts and conflicts of one kind of resource. */
  datatype Outcome<T> = Outcome(accepted: nat, conflicts: seq<T>)

  datatype Response =
    | Ok(notes: Outcome<Put>, cards: nat, reviews: Outcome<ReviewPut>, studyDays: nat,
         notetypes: Outcome<Put>, decks: Outcome<Put>)
    | BadRequest

  datatype DeleteResponse = Deleted(requested: nat) | TooManyDeletes | DuplicateIds

  const MAX_BATCH_DELETES := 12000

  datatype ImmersionResponse = BadImmersion | DeckNotFound | Created(deck: string, modelId: int, guid: string, cardId: int)

  predicate Blank(s: string) {
    forall c <- s :: IsUnicodeSpace(c)
  }

  /** `modelId` is the requested notetype id here; the lookup by name may replace it. */
  predicate ValidImmersion(q: Immersion) {
    && !Blank(q.deck)
    && q.modelId != 0 && q.notetypeContent.NotetypeContent? && !Blank(q.notetypeContent.name)
    && !Blank(q.guid) && |q.fields| > 0 && !Blank(q.fields[0])
    && q.cardId != 0
  }

  ghost predicate NamelessDay(ss: seq<StudyPut>) {
    exists i :: 0 <= i < |ss| && ss[i].key.deck == ""
  }

  lemma RefusedIff(b: Batch)
    ensures BatchRefused(b) <==> (exists i :: 0 <= i < |b.reviews| && b.reviews[i].reviewId <= 0) || NamelessDay(b.studyDays)
  {
    assert BadReviews(b.reviews) <==> exists i :: 0 <= i < |b.reviews| && b.reviews[i].reviewId <= 0 by {
      if i :| 0 <= i < |b.reviews| && b.reviews[i].reviewId <= 0 { assert b.reviews[i] in b.reviews; }
    }
    assert StudyPrefix(b.studyDays) < |b.studyDays| <==> NamelessDay(b.studyDays);
  }

  predicate OnlySpace(s: string) {
    forall i :: 0 <= i < |s| ==> IsUnicodeSpace(s[i])
  }

  /** A name, the guid, the front field or an id is not there. */
  predicate Incomplete(q: Immersion) {
    || OnlySpace(q.deck) || OnlySpace(q.guid) || q.modelId == 0 || q.cardId == 0
    || !q.notetypeContent.NotetypeContent? || OnlySpace(q.notetypeContent.name)
    || q.fields == [] || OnlySpace(q.fields[0])
  }

  /** A row of this content, new with the request or there before. */
  ghost predicate Provided(db: Db, db': Db, r: GuardedRef, content: Content, sent: int, now: int) {
    && r in db'.records
    && if r in db.records then db'.records[r] == db.records[r]
       else db'.records[r].content == content && db'.records[r].modifiedAt == now && KeepsTime(now, sent, db'.records[r].clientModifiedAt)
  }

  /** The request adds its deck, notetype, note and card where they are missing, and touches nothing else that is stored. */
  ghost predicate OnlyAdds(db: Db, q: Immersion, now: int, db': Db) {
    var key := CardKey(q.guid, q.ord);
    && Provided(db, db', DeckRef(q.deck), q.deckContent, q.clientModifiedAt, now)
    && Provided(db, db', NotetypeRef(q.modelId), q.notetypeContent, q.clientModifiedAt, now)
    && Provided(db, db', NoteRef(q.guid), NoteContent(q.modelId, q.fields, q.tags), q.clientModifiedAt, now)
    && key in db'.cards
    && (key !in db.cards ==>
        && db'.cards[key].cardId == q.cardId && db'.cards[key].deck == q.deck && db'.cards[key].scheduling == q.scheduling
        && db'.cards[key].modifiedAt == now && KeepsTime(now, q.clientModifiedAt, db'.cards[key].clientModifiedAt))
    && (forall r :: r in db.records ==> r in db'.records && db'.records[r] == db.records[r])
    && (forall r :: r in db'.records && r !in db.records ==> r in {DeckRef(q.deck), NotetypeRef(q.modelId), NoteRef(q.guid)})
    && (forall k :: k in db.cards ==> k in db'.cards && db'.cards[k] == db.cards[k])
    && (forall k :: k in db'.cards && k !in db.cards ==> k == key)
    && db'.reviews == db.reviews && db'.studyDays == db.studyDays
  }

  /** Three inserts of different kinds, each keeping what is there. */
  lemma InsertedRows(db: Db, d: GuardedRef, dRow: Record, t: GuardedRef, tRow: Record, n: GuardedRef, nRow: Record, rows: map<GuardedRef, Record>)
    requires d.DeckRef? && t.NotetypeRef? && n.NoteRef?
    requires rows == db.records + Absent(db, d, dRow) + Absent(db, t, tRow) + Absent(db, n, nRow)
    ensures d in rows && t in rows && n in rows
    ensures (d !in db.records ==> rows[d] == dRow) && (t !in db.records ==> rows[t] == tRow) && (n !in db.records ==> rows[n] == nRow)
    ensures forall r :: r in db.records ==> r in rows && rows[r] == db.records[r]
    ensures forall r :: r in rows && r !in db.records ==> r in {d, t, n}
  {
  }

  lemma SentTimeIsKept(now: int, sent: int)
    ensures KeepsTime(now, sent, UtcWriteTime(now, sent))
  {
  }

  lemma ImmersionOnlyAdds(db: Db, q: Immersion, now: int)
    requires !DeckMissing(db, q)
    ensures OnlyAdds(db, q, now, Apply(db, Event(now, ImmersionAtom(q))))
    ensures CardKey(q.guid, q.ord) in Apply(db, Event(now, ImmersionAtom(q))).cards
    ensures CanonicalCardId(db, CardKey(q.guid, q.ord), q.cardId) == Apply(db, Event(now, ImmersionAtom(q))).cards[CardKey(q.guid, q.ord)].cardId
  {
    ApplyImmersion(db, q, now);
    ImmersionRecords(db, q, now);
    hide *;
    InsertsOnlyAdd(db, q, now, UtcWriteTime(now, q.clientModifiedAt), Apply(db, Event(now, ImmersionAtom(q))));
  }

  lemma InsertsOnlyAdd(db: Db, q: Immersion, now: int, at: int, db': Db)
    requires at == UtcWriteTime(now, q.clientModifiedAt)
    requires db'.records == db.records + Absent(db, DeckRef(q.deck), Record(q.deckContent, now, at))
                          + Absent(db, NotetypeRef(q.modelId), Record(q.notetypeContent, now, at))
                          + Absent(db, NoteRef(q.guid), Record(NoteContent(q.modelId, q.fields, q.tags), now, at))
    requires var key := CardKey(q.guid, q.ord);
      db'.cards == if key in db.cards then db.cards else db.cards[key := Card(q.cardId, q.deck, q.scheduling, now, at)]
    requires db'.reviews == db.reviews && db'.studyDays == db.studyDays
    ensures OnlyAdds(db, q, now, db') && CardKey(q.guid, q.ord) in db'.cards
    ensures CanonicalCardId(db, CardKey(q.guid, q.ord), q.cardId) == db'.cards[CardKey(q.guid, q.ord)].cardId
  {
    SentTimeIsKept(now, q.clientModifiedAt);
    InsertedRows(db, DeckRef(q.deck), Record(q.deckContent, now, at), NotetypeRef(q.modelId), Record(q.notetypeContent, now, at),
                 NoteRef(q.guid), Record(NoteContent(q.modelId, q.fields, q.tags), now, at), db'.records);
    hide Absent;
    hide UtcWriteTime;
    hide KeepsTime;
  }

  lemma AddsItsCard(db: Db, q: Immersion, now: int, db': Db)
    requires OnlyAdds(db, q, now, db')
    ensures CardKey(q.guid, q.ord) in db'.cards
  {
  }

  lemma IncompleteIffInvalid(q: Immersion)
    ensures Incomplete(q) <==> !ValidImmersion(q)
  {
    assert forall s: string :: OnlySpace(s) <==> Blank(s) by { BlankIsOnlySpace(); }
    hide OnlySpace;
    hide Blank;
  }

  lemma BlankIsOnlySpace()
    ensures forall s: string :: OnlySpace(s) <==> Blank(s)
  {
  }

  predicate IsNotetypeNamed(records: map<GuardedRef, Record>, r: GuardedRef, name: string) {
    r in records && r.NotetypeRef? && records[r].content.NotetypeContent? && records[r].content.name == name
  }

  /** Of the notetypes with this name, one with the least receipt time. */
  predicate IsOldestNotetype(records: map<GuardedRef, Record>, r: GuardedRef, name: string) {
    && IsNotetypeNamed(records, r, name)
    && forall o <- records.Keys :: IsNotetypeNamed(records, o, name) ==> records[r].modifiedAt <= records[o].modifiedAt
  }

  /** One manifest query: the rows that qualify, each projected to its entry. */
  method Scan<K, V, E>(rows: map<K, V>, keep: V -> bool, entry: V -> E) returns (out: map<K, E>)
    ensures out == map k | k in rows && keep(rows[k]) :: entry(rows[k])
  {
    out := map[];
    var rest := rows.Keys;
    while rest != {}
      invariant rest <= rows.Keys
      invariant out == map k | k in rows && k !in rest && keep(rows[k]) :: entry(rows[k])
      decreases rest
    {
      var k :| k in rest;
      rest := rest - {k};
      if keep(rows[k]) {
        out := out[k := entry(rows[k])];
      }
    }
  }

  class Handler {
    var records: map<GuardedRef, Record>
    var cards: map<CardKey, Card>
    var reviews: map<int, Stamped<Review>>
    var studyDays: map<StudyKey, Stamped<Counters>>
    var tombstones: map<Ref, int>

    ghost function State(): Db
      reads this
    {
      Db(records, cards, reviews, studyDays, tombstones)
    }

    constructor ()
      ensures State() == EMPTY_DB
    {
      records, cards, reviews, studyDays, tombstones := map[], map[], map[], map[], map[];
    }

    // ---------------------------------------------------------- single writes --

    method ClearTombstone(r: Ref)
      modifies this`tombstones
      ensures tombstones == old(tombstones) - {r}
    {
      tombstones := tombstones - {r};
    }

    /** upsertNote, upsertNotetype and upsertDeck. */
    method UpsertRecord(p: Put, now: int)
      modifies this`records, this`tombstones
      ensures records == old(records)[p.ref := Record(p.content, now, UtcWriteTime(now, p.clientModifiedAt))]
      ensures KeepsTime(now, p.clientModifiedAt, records[p.ref].clientModifiedAt)
      ensures tombstones == old(tombstones) - {p.ref}
    {
      var at := UtcWriteTime(now, p.clientModifiedAt);
      records := records[p.ref := Record(p.content, now, at)];
      ClearTombstone(p.ref);
    }

    /** The conflict check and write shared by PutNote, PutNotetype, PutDeck and the batch. */
    method PutRecord(p: Put, force: bool, now: int) returns (accepted: bool)
      modifies this
      ensures State() == Apply(old(State()), Event(now, PutAtom(p, force)))
      ensures accepted == old(Accepts(State(), p, force))
    {
      ApplyPut(State(), p, force, now);
      hide Apply;
      var newChecksum := DigestOf(p.content);
      if p.ref in records && !force && DigestOf(records[p.ref].content) != p.base {
        if DigestOf(records[p.ref].content) != newChecksum {
          return false;
        }
      }
      UpsertRecord(p, now);
      accepted := true;
    }

    /** INSERT ... ON CONFLICT (note_guid, ord) DO UPDATE, RETURNING the stored id. */
    method UpsertCard(c: CardPut, now: int)
      modifies this`cards, this`tombstones
      ensures var id := if c.key in old(cards) then old(cards)[c.key].cardId else c.cardId;
        && cards == old(cards)[c.key := Card(id, c.deck, c.scheduling, now, UtcWriteTime(now, c.clientModifiedAt))]
        && tombstones == old(tombstones) - {CardRef(id)}
      ensures KeepsTime(now, c.clientModifiedAt, cards[c.key].clientModifiedAt)
    {
      var at := UtcWriteTime(now, c.clientModifiedAt);
      var id := if c.key in cards then cards[c.key].cardId else c.cardId;
      cards := cards[c.key := Card(id, c.deck, c.scheduling, now, at)];
      ClearTombstone(CardRef(id));
    }

    /** PutCard and one card of a batch; the batch skips blank guids. */
    method PutCard(c: CardPut, now: int) returns (accepted: bool)
      modifies this
      requires now != GO_ZERO_TIME
      ensures State() == Apply(old(State()), Event(now, CardAtom(c)))
      ensures accepted == (c.key.guid != "" && old(CardAccepts(State(), c, now)))
    {
      ApplyCard(State(), c, now);
      hide Apply;
      if c.key.guid == "" {
        return false;
      }
      var normalized := c.(clientModifiedAt := UtcWriteTime(now, c.clientModifiedAt));
      if c.key in cards {
        var existing := cards[c.key];
        if existing.clientModifiedAt > normalized.clientModifiedAt {
          return false;
        }
        normalized := normalized.(cardId := existing.cardId);
      }
      ClampingTwiceIsClampingOnce(now, c.clientModifiedAt);
      UpsertCard(normalized, now);
      accepted := true;
    }

    /** DELETE FROM the table, then the tombstone upsert. */
    method Delete(r: Ref, now: int)
      modifies this
      ensures State() == Apply(old(State()), Event(now, DeleteAtom(r)))
    {
      if r.CardRef? {
        cards := map k | k in cards && cards[k].cardId != r.cardId :: cards[k];
      } else {
        records := records - {r};
      }
      tombstones := tombstones[r := now];
    }

    // --------------------------------------------------------- review history --

    /** loadReviews: the requested rows that exist, as a batch pull returns them. */
    method LoadReviews(ids: seq<int>) returns (out: seq<ReviewPut>)
      ensures forall r <- out :: r.reviewId in ids && r.reviewId in reviews && r.review == reviews[r.reviewId].value
      ensures forall id <- ids :: id in reviews ==> exists r <- out :: r.reviewId == id
    {
      out := [];
      for i := 0 to |ids|
        invariant forall r <- out :: r.reviewId in ids && r.reviewId in reviews && r.review == reviews[r.reviewId].value
        invariant forall j :: 0 <= j < i && ids[j] in reviews ==> exists r <- out :: r.reviewId == ids[j]
      {
        if ids[i] in reviews {
          ghost var before := out;
          var put := ReviewPut(ids[i], reviews[ids[i]].value);
          out := out + [put];
          assert put in out && forall r <- before :: r in out;
        }
      }
    }

    /** One INSERT of all rows ON CONFLICT DO NOTHING, then a digest comparison. */
    method InsertReviews(requests: seq<ReviewPut>, now: int) returns (collisions: seq<ReviewPut>)
      modifies this
      ensures State() == Run(old(State()), ReviewEvents(requests, now))
      ensures collisions == Collisions(State(), requests) && |collisions| <= |requests|
    {
      ghost var before := State();
      hide Apply;
      for i := 0 to |requests|
        invariant State() == Run(before, ReviewEvents(requests[..i], now))
      {
        var r := requests[i];
        assert ReviewEvents(requests[..i + 1], now)[..i] == ReviewEvents(requests[..i], now);
        ApplyReview(State(), r, now);
        if r.reviewId !in reviews {
          reviews := reviews[r.reviewId := Stamped(r.review, now)];
        }
      }
      assert requests[..|requests|] == requests;
      collisions := [];
      for i := 0 to |requests|
        invariant collisions == Collisions(State(), requests[..i]) && |collisions| <= i
        invariant State() == Run(before, ReviewEvents(requests, now))
      {
        var r := requests[i];
        assert requests[..i + 1][..i] == requests[..i];
        if !(r.reviewId in reviews && ReviewDigestOf(reviews[r.reviewId].value) == ReviewDigestOf(r.review)) {
          collisions := collisions + [r];
        }
      }
    }

    /** INSERT ... ON CONFLICT DO UPDATE SET each counter to GREATEST. */
    method UpsertStudyDay(s: StudyPut, now: int) returns (ok: bool)
      modifies this
      ensures ok <==> s.key.deck != ""
      ensures State() == if ok then Apply(old(State()), Event(now, StudyAtom(s))) else old(State())
    {
      ApplyStudy(State(), s, now);
      hide Apply;
      if s.key.deck == "" {
        return false;
      }
      var merged := s.counters;
      if s.key in studyDays {
        var stored := studyDays[s.key].value;
        merged := Counters(Max(stored.newStudied, merged.newStudied), Max(stored.reviewStudied, merged.reviewStudied),
                           Max(stored.learningStudied, merged.learningStudied), Max(stored.millis, merged.millis));
      }
      studyDays := studyDays[s.key := Stamped(merged, now)];
      ok := true;
    }

    // ------------------------------------------------------------------ batch --

    method PushRecords(ps: seq<Put>, force: bool, now: int) returns (accepted: nat, conflicts: seq<Put>)
      modifies this
      ensures State() == Run(old(State()), PutEvents(ps, force, now))
      ensures conflicts == Conflicts(old(State()), ps, force, now)
      ensures accepted + |conflicts| == |ps|
    {
      hide Apply;
      hide Accepts;
      ghost var before := State();
      accepted, conflicts := 0, [];
      for i := 0 to |ps|
        invariant State() == Run(before, PutEvents(ps[..i], force, now))
        invariant conflicts == Conflicts(before, ps[..i], force, now)
        invariant accepted + |conflicts| == i
      {
        assert PutEvents(ps[..i + 1], force, now)[..i] == PutEvents(ps[..i], force, now);
        assert ps[..i + 1][..i] == ps[..i];
        var ok := PutRecord(ps[i], force, now);
        if ok {
          accepted := accepted + 1;
        } else {
          conflicts := conflicts + [ps[i]];
        }
      }
      assert ps[..|ps|] == ps;
    }

    method PushCards(cs: seq<CardPut>, now: int) returns (accepted: nat)
      requires now != GO_ZERO_TIME
      modifies this
      ensures State() == Run(old(State()), CardEvents(cs, now))
      ensures accepted == AcceptedCards(old(State()), cs, now)
    {
      ghost var before := State();
      hide Apply;
      accepted := 0;
      for i := 0 to |cs|
        invariant State() == Run(before, CardEvents(cs[..i], now))
        invariant accepted == AcceptedCards(before, cs[..i], now)
      {
        assert cs[..i + 1][..i] == cs[..i];
        assert CardEvents(cs[..i + 1], now)[..i] == CardEvents(cs[..i], now);
        var ok := PutCard(cs[i], now);
        if ok {
          accepted := accepted + 1;
        }
      }
      assert cs[..|cs|] == cs;
    }

    method PushStudyDays(ss: seq<StudyPut>, now: int) returns (accepted: nat)
      modifies this
      ensures accepted == StudyPrefix(ss)
      ensures State() == Run(old(State()), StudyEvents(ss[..StudyPrefix(ss)], now))
    {
      ghost var before := State();
      hide Apply;
      accepted := 0;
      while accepted < |ss|
        invariant accepted <= |ss|
        invariant forall j :: 0 <= j < accepted ==> ss[j].key.deck != ""
        invariant State() == Run(before, StudyEvents(ss[..accepted], now))
      {
        var ok := UpsertStudyDay(ss[accepted], now);
        if !ok {
          break;
        }
        assert StudyEvents(ss[..accepted + 1], now)[..accepted] == StudyEvents(ss[..accepted], now);
        accepted := accepted + 1;
      }
      assert accepted == StudyPrefix(ss);
    }

    /** The first review with a non-positive id, if any, ends the request. */
    method ReviewIdsArePositive(rs: seq<ReviewPut>) returns (ok: bool)
      ensures ok <==> !BadReviews(rs)
    {
      for i := 0 to |rs|
        invariant forall j :: 0 <= j < i ==> rs[j].reviewId > 0
      {
        if rs[i].reviewId <= 0 {
          return false;
        }
      }
      ok := true;
    }

    /**
     * Many records at once, kind by kind.  A bad review id or study day ends the
     * request with an error after the kinds before it have been written.
     */
    method BatchPush(b: Batch, force: bool, now: int) returns (resp: Response)
      requires now != GO_ZERO_TIME
      modifies this
      ensures State() == Run(old(State()), BatchEvents(b, force, now))
      ensures resp.BadRequest? <==> BatchRefused(b)
      ensures resp.BadRequest? <==> (exists i :: 0 <= i < |b.reviews| && b.reviews[i].reviewId <= 0) || NamelessDay(b.studyDays)
      ensures resp.Ok? ==>
        var db0 := old(State());
        var db1 := Run(db0, PutEvents(b.notes, force, now));
        var h2 := PutEvents(b.notes, force, now) + CardEvents(b.cards, now) + ReviewEvents(b.reviews, now);
        var h3 := h2 + StudyEvents(b.studyDays, now);
        var h4 := h3 + PutEvents(b.notetypes, force, now);
        && resp.notes.conflicts == Conflicts(db0, b.notes, force, now)
        && resp.cards == AcceptedCards(db1, b.cards, now)
        && resp.reviews.conflicts == Collisions(Run(db0, h2), b.reviews)
        && resp.notetypes.conflicts == Conflicts(Run(db0, h3), b.notetypes, force, now)
        && resp.decks.conflicts == Conflicts(Run(db0, h4), b.decks, force, now)
        && resp.studyDays == |b.studyDays|
        && resp.notes.accepted + |resp.notes.conflicts| == |b.notes|
        && resp.reviews.accepted + |resp.reviews.conflicts| == |b.reviews|
        && resp.notetypes.accepted + |resp.notetypes.conflicts| == |b.notetypes|
        && resp.decks.accepted + |resp.decks.conflicts| == |b.decks|
    {
      ghost var db0 := State();
      RefusedIff(b);
      hide Run;
      hide Conflicts;
      hide Collisions;
      var notesAccepted, noteConflicts := PushRecords(b.notes, force, now);
      var cardsAccepted := PushCards(b.cards, now);
      ghost var h1 := PutEvents(b.notes, force, now) + CardEvents(b.cards, now);
      RunConcat(db0, PutEvents(b.notes, force, now), CardEvents(b.cards, now));
      var idsOk := ReviewIdsArePositive(b.reviews);
      if !idsOk {
        return BadRequest;
      }
      var collisions := InsertReviews(b.reviews, now);
      ghost var h2 := h1 + ReviewEvents(b.reviews, now);
      RunConcat(db0, h1, ReviewEvents(b.reviews, now));
      var daysAccepted := PushStudyDays(b.studyDays, now);
      ghost var h3 := h2 + StudyEvents(b.studyDays[..daysAccepted], now);
      RunConcat(db0, h2, StudyEvents(b.studyDays[..daysAccepted], now));
      if daysAccepted < |b.studyDays| {
        return BadRequest;
      }
      assert b.studyDays[..daysAccepted] == b.studyDays;
      var notetypesAccepted, notetypeConflicts := PushRecords(b.notetypes, force, now);
      RunConcat(db0, h3, PutEvents(b.notetypes, force, now));
      var decksAccepted, deckConflicts := PushRecords(b.decks, force, now);
      RunConcat(db0, h3 + PutEvents(b.notetypes, force, now), PutEvents(b.decks, force, now));
      resp := Ok(Outcome(notesAccepted, noteConflicts), cardsAccepted,
                 Outcome(|b.reviews| - |collisions|, collisions), daysAccepted,
                 Outcome(notetypesAccepted, notetypeConflicts), Outcome(decksAccepted, deckConflicts));
    }

    /**
     * One transaction: nothing for an empty or oversized request, nothing when an
     * id is repeated (the tombstone upsert cannot touch a row twice), else all.
     */
    method BatchDelete(refs: seq<Ref>, now: int) returns (resp: DeleteResponse)
      modifies this
      ensures resp == if |refs| > 12000 then TooManyDeletes
                      else if exists i, j :: 0 <= i < j < |refs| && refs[i] == refs[j] then DuplicateIds
                      else Deleted(|refs|)
      ensures State() == if resp.Deleted? then Run(old(State()), DeleteEvents(refs, now)) else old(State())
    {
      if |refs| == 0 {
        return Deleted(0);
      }
      if |refs| > MAX_BATCH_DELETES {
        return TooManyDeletes;
      }
      if exists i, j :: 0 <= i < j < |refs| && refs[i] == refs[j] {
        return DuplicateIds;
      }
      ghost var before := State();
      for i := 0 to |refs|
        invariant State() == Run(before, DeleteEvents(refs[..i], now))
      {
        assert DeleteEvents(refs[..i + 1], now)[..i] == DeleteEvents(refs[..i], now);
        Delete(refs[i], now);
      }
      assert refs[..|refs|] == refs;
      resp := Deleted(|refs|);
    }

    // -------------------------------------------------------------- immersion --

    /** SELECT ... WHERE name = $2 ORDER BY modified_at LIMIT 1. */
    method OldestNotetypeNamed(name: string) returns (id: Option<int>)
      ensures id.None? <==> forall r: GuardedRef :: !IsNotetypeNamed(records, r, name)
      ensures id.Some? ==> IsOldestNotetype(records, NotetypeRef(id.value), name)
    {
      id := None;
      var rest := records.Keys;
      while rest != {}
        invariant rest <= records.Keys
        invariant id.Some? ==> IsNotetypeNamed(records, NotetypeRef(id.value), name)
        invariant forall r: GuardedRef :: r !in rest && IsNotetypeNamed(records, r, name) ==>
                    id.Some? && records[NotetypeRef(id.value)].modifiedAt <= records[r].modifiedAt
        decreases rest
      {
        var r :| r in rest;
        rest := rest - {r};
        if IsNotetypeNamed(records, r, name)
           && (id.None? || records[r].modifiedAt < records[NotetypeRef(id.value)].modifiedAt) {
          id := Some(r.notetypeId);
        }
      }
    }

    method InsertIfAbsent(r: GuardedRef, row: Record)
      modifies this`records
      ensures records == old(records) + (if r in old(records) then map[] else map[r := row])
    {
      if r !in records {
        records := records[r := row];
      }
    }

    /** The three guarded inserts: each leaves an existing row alone. */
    method InsertImmersionRecords(q: Immersion, now: int)
      requires q.createDeck || DeckRef(q.deck) in records
      modifies this`records
      ensures records == old(records) + old(ImmersionWrites(State(), q, now)).records
    {
      ghost var was := records;
      ImmersionRecords(State(), q, now);
      hide ImmersionWrites;
      var at := UtcWriteTime(now, q.clientModifiedAt);
      if q.createDeck {
        InsertIfAbsent(DeckRef(q.deck), Record(q.deckContent, now, at));
      }
      InsertIfAbsent(NotetypeRef(q.modelId), Record(q.notetypeContent, now, at));
      InsertIfAbsent(NoteRef(q.guid), Record(NoteContent(q.modelId, q.fields, q.tags), now, at));
    }

    method InsertImmersionCard(q: Immersion, now: int) returns (canonical: int)
      modifies this`cards
      ensures cards == if CardKey(q.guid, q.ord) in old(cards) then old(cards)
                else old(cards)[CardKey(q.guid, q.ord) := Card(q.cardId, q.deck, q.scheduling, now, UtcWriteTime(now, q.clientModifiedAt))]
      ensures canonical == old(CanonicalCardId(State(), CardKey(q.guid, q.ord), q.cardId))
    {
      var key := CardKey(q.guid, q.ord);
      if key !in cards {
        cards := cards[key := Card(q.cardId, q.deck, q.scheduling, now, UtcWriteTime(now, q.clientModifiedAt))];
      }
      canonical := cards[key].cardId;
    }

    /** The transaction; its insert of a notetype found by name changes nothing. */
    method CreateImmersion(q: Immersion, now: int) returns (canonical: int)
      requires q.createDeck || DeckRef(q.deck) in records
      modifies this
      ensures State() == Apply(old(State()), Event(now, ImmersionAtom(q)))
      ensures canonical == old(CanonicalCardId(State(), CardKey(q.guid, q.ord), q.cardId))
    {
      hide Apply;
      hide ImmersionWrites;
      ghost var db := State();
      ApplyImmersion(db, q, now);
      InsertImmersionRecords(q, now);
      canonical := InsertImmersionCard(q, now);
      tombstones := tombstones - {DeckRef(q.deck), NotetypeRef(q.modelId), NoteRef(q.guid), CardRef(canonical)};
    }

    /**
     * The create-only fast path.  Reposting it changes nothing that exists, and it
     * answers with the canonical id of the logical card.
     */
    method PostImmersionCard(q: Immersion, now: int) returns (resp: ImmersionResponse)
      modifies this
      ensures resp.BadImmersion? <==> !ValidImmersion(q)
      ensures resp.DeckNotFound? <==> ValidImmersion(q) && DeckMissing(old(State()), q)
      ensures !resp.Created? ==> State() == old(State())
      ensures resp.Created? ==>
        && State() == Apply(old(State()), Event(now, ImmersionAtom(q.(modelId := resp.modelId))))
        && resp.deck == q.deck && resp.guid == q.guid
        && resp.cardId == CanonicalCardId(old(State()), CardKey(q.guid, q.ord), q.cardId)
        && (if exists r: GuardedRef :: IsNotetypeNamed(old(records), r, q.notetypeContent.name)
            then IsOldestNotetype(old(records), NotetypeRef(resp.modelId), q.notetypeContent.name)
            else resp.modelId == q.modelId)
      ensures resp.BadImmersion? <==> Incomplete(q)
      ensures resp.DeckNotFound? <==> !Incomplete(q) && !q.createDeck && DeckRef(q.deck) !in old(records)
      ensures resp.Created? ==>
        && OnlyAdds(old(State()), q.(modelId := resp.modelId), now, State())
        && CardKey(q.guid, q.ord) in cards && resp.cardId == cards[CardKey(q.guid, q.ord)].cardId
    {
      IncompleteIffInvalid(q);
      hide OnlyAdds;
      hide Incomplete;
      hide Apply;
      if !ValidImmersion(q) {
        return BadImmersion;
      }
      if !q.createDeck && DeckRef(q.deck) !in records {
        return DeckNotFound;
      }
      var found := OldestNotetypeNamed(q.notetypeContent.name);
      var modelId := if found.Some? then found.value else q.modelId;
      ghost var db := State();
      var canonical := CreateImmersion(q.(modelId := modelId), now);
      resp := Created(q.deck, modelId, q.guid, canonical);
      ImmersionOnlyAdds(db, q.(modelId := modelId), now);
      AddsItsCard(db, q.(modelId := modelId), now, State());
    }

    // --------------------------------------------------------------- manifest --

    method ManifestRecords(since: Option<int>) returns (out: map<GuardedRef, Entry>)
      ensures forall now :: out == ManifestOf(State(), since, now).records
    {
      out := Scan(records, (r: Record) => Changed(r.modifiedAt, since), EntryOf);
    }

    method ManifestCards(since: Option<int>) returns (out: map<CardKey, CardEntry>)
      ensures forall now :: out == ManifestOf(State(), since, now).cards
    {
      out := Scan(cards, (c: Card) => Changed(c.modifiedAt, since), CardEntryOf);
    }

    method ManifestReviews(since: Option<int>) returns (out: map<int, ReviewEntry>)
      ensures forall now :: out == ManifestOf(State(), since, now).reviews
    {
      out := Scan(reviews, (r: Stamped<Review>) => Changed(r.modifiedAt, since), ReviewEntryOf);
    }

    method ManifestStudyDays(since: Option<int>) returns (out: map<StudyKey, Stamped<Counters>>)
      ensures forall now :: out == ManifestOf(State(), since, now).studyDays
    {
      out := Scan(studyDays, (d: Stamped<Counters>) => Changed(d.modifiedAt, since), (d: Stamped<Counters>) => d);
    }

    method ManifestTombstones(since: Option<int>) returns (out: map<Ref, int>)
      ensures forall now :: out == ManifestOf(State(), since, now).tombstones
    {
      out := Scan(tombstones, (t: int) => Changed(t, since), (t: int) => t);
    }

    /** GetManifest: with `since`, only what was written or deleted after it. */
    method GetManifest(since: Option<int>, now: int) returns (m: Manifest)
      ensures m == ManifestOf(State(), since, now)
      ensures Tells(m, State(), since) && m.serverTime == now
    {
      ManifestTells(State(), since, now);
      hide Tells;
      var rs := ManifestRecords(since);
      var cs := ManifestCards(since);
      var vs := ManifestReviews(since);
      var ds := ManifestStudyDays(since);
      var ts := ManifestTombstones(since);
      m := Manifest(rs, cs, vs, ds, ts, now);
    }
  }
}
