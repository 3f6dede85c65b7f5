// What the server keeps over every run of requests: identity of live and
// deleted resources, the clock bound, the version chain of guarded content, the
// append-only log, and incremental manifests.

module ServerRuns {
  import opened Prelude
  import opened Clock
  import opened ServerSpec

  // ---------------------------------------------------------------- identity --

  ghost predicate Live(db: Db, r: Ref) {
    if r.CardRef? then exists k :: k in db.cards && db.cards[k].cardId == r.cardId else r in db.records
  }

  /** Every resource is live, deleted or unknown, and never both of the first two. */
  ghost predicate NeverBoth(db: Db) {
    forall r :: r in db.tombstones ==> !Live(db, r)
  }

  /** Nothing live or deleted in `db` is forgotten in `db'`. */
  ghost predicate Remembers(db: Db, db': Db) {
    forall r :: Live(db, r) || r in db.tombstones ==> Live(db', r) || r in db'.tombstones
  }

  /** What every write set of the server has in common. */
  ghost predicate WellWritten(db: Db, w: Writes, now: int) {
    && (forall r :: r in w.records ==>
        r in w.clear && w.records[r].modifiedAt == now && ClockBounded(now, w.records[r].clientModifiedAt))
    && (forall k :: k in w.cards ==>
        && CardRef(w.cards[k].cardId) in w.clear
        && w.cards[k].modifiedAt == now && ClockBounded(now, w.cards[k].clientModifiedAt)
        && (k in db.cards ==> w.cards[k].cardId == db.cards[k].cardId))
    && (forall i :: i in w.reviews ==> i !in db.reviews && w.reviews[i].modifiedAt == now)
    && (forall k :: k in w.studyDays ==> w.studyDays[k].modifiedAt == now)
  }

  lemma WritesAreWellWritten(db: Db, e: Event)
    ensures WellWritten(db, WritesOf(db, e), e.at)
  {
  }

  /** The source time a write carries, if it carries one. */
  function SentTime(a: Atom): Option<int> {
    match a
    case PutAtom(p, _) => Some(p.clientModifiedAt)
    case CardAtom(c) => Some(c.clientModifiedAt)
    case ImmersionAtom(q) => Some(q.clientModifiedAt)
    case _ => None
  }

  lemma WrittenTimes(db: Db, e: Event)
    ensures forall r :: r in WritesOf(db, e).records ==>
      SentTime(e.atom).Some? && KeepsTime(e.at, SentTime(e.atom).value, WritesOf(db, e).records[r].clientModifiedAt)
    ensures forall k :: k in WritesOf(db, e).cards ==>
      SentTime(e.atom).Some? && KeepsTime(e.at, SentTime(e.atom).value, WritesOf(db, e).cards[k].clientModifiedAt)
  {
  }

  /** Every row a request adds or changes is stamped with its receipt, and keeps the time the client sent if it may. */
  lemma StoredTimes(db: Db, e: Event)
    ensures var db' := Apply(db, e);
      && (forall r :: r in db'.records && (r !in db.records || db'.records[r] != db.records[r]) ==>
          && db'.records[r].modifiedAt == e.at
          && SentTime(e.atom).Some? && KeepsTime(e.at, SentTime(e.atom).value, db'.records[r].clientModifiedAt))
      && (forall k :: k in db'.cards && (k !in db.cards || db'.cards[k] != db.cards[k]) ==>
          && db'.cards[k].modifiedAt == e.at
          && SentTime(e.atom).Some? && KeepsTime(e.at, SentTime(e.atom).value, db'.cards[k].clientModifiedAt))
  {
    WritesAreWellWritten(db, e);
    WrittenTimes(db, e);
    hide WritesOf;
    hide SentTime;
    hide KeepsTime;
  }

  /** A tombstone is cleared only for something live after the write. */
  lemma ClearedIsLive(db: Db, e: Event, r: Ref)
    requires !e.atom.DeleteAtom? && r in WritesOf(db, e).clear
    ensures Live(Apply(db, e), r)
  {
    var w := WritesOf(db, e);
    var db' := Apply(db, e);
    if r.CardRef? {
      var k := if e.atom.CardAtom? then e.atom.card.key else CardKey(e.atom.request.guid, e.atom.request.ord);
      assert k in db'.cards && db'.cards[k].cardId == r.cardId;
    }
  }

  lemma LiveAfterOverlay(db: Db, w: Writes, now: int, r: Ref)
    requires WellWritten(db, w, now)
    ensures Live(db, r) ==> Live(Overlay(db, w), r)
    ensures Live(Overlay(db, w), r) ==> Live(db, r) || r in w.clear
  {
    var db' := Overlay(db, w);
    if r.CardRef? {
      if Live(db, r) {
        var k :| k in db.cards && db.cards[k].cardId == r.cardId;
        assert k in db'.cards && db'.cards[k].cardId == r.cardId;
      }
      if Live(db', r) {
        var k :| k in db'.cards && db'.cards[k].cardId == r.cardId;
        assert k in db.cards && k !in w.cards ==> db.cards[k].cardId == r.cardId;
      }
    }
  }

  lemma LiveAfterDelete(db: Db, d: Ref, now: int, r: Ref)
    ensures Live(DeleteResource(db, d, now), r) <==> r != d && Live(db, r)
  {
    var db' := DeleteResource(db, d, now);
    if r.CardRef? && r != d && Live(db, r) {
      var k :| k in db.cards && db.cards[k].cardId == r.cardId;
      assert k in db'.cards && db'.cards[k].cardId == r.cardId;
    }
    if r.CardRef? && Live(db', r) {
      var k :| k in db'.cards && db'.cards[k].cardId == r.cardId;
      assert k in db.cards;
    }
  }

  lemma StepIdentity(db: Db, e: Event)
    requires NeverBoth(db)
    ensures NeverBoth(Apply(db, e)) && Remembers(db, Apply(db, e))
  {
    forall r
      ensures r in Apply(db, e).tombstones ==> !Live(Apply(db, e), r)
      ensures Live(db, r) || r in db.tombstones ==> Live(Apply(db, e), r) || r in Apply(db, e).tombstones
    {
      if e.atom.DeleteAtom? {
        LiveAfterDelete(db, e.atom.ref, e.at, r);
      } else {
        WritesAreWellWritten(db, e);
        LiveAfterOverlay(db, WritesOf(db, e), e.at, r);
        if r in WritesOf(db, e).clear { ClearedIsLive(db, e, r); }
      }
    }
  }

  /**
   * Over every run, whatever was ever live or deleted is, at the end, live or
   * tombstoned and never both.
   */
  lemma {:induction false} RunIdentity(db: Db, h: seq<Event>, n: nat)
    requires NeverBoth(db) && n <= |h|
    ensures NeverBoth(Run(db, h)) && Remembers(Run(db, h[..n]), Run(db, h))
  {
    if n == |h| {
      assert h[..n] == h;
      if n > 0 {
        RunIdentity(db, h[..n - 1], n - 1);
        StepIdentity(Run(db, h[..n - 1]), h[n - 1]);
      }
    } else {
      var before := h[..|h| - 1];
      RunIdentity(db, before, n);
      assert before[..n] == h[..n];
      StepIdentity(Run(db, before), h[|h| - 1]);
    }
  }

  /** A logical card keeps its first writer's id for as long as that id is not deleted. */
  lemma {:induction false} CardIdIsStable(db: Db, h: seq<Event>, k: CardKey)
    requires k in db.cards
    requires forall e <- h :: e.atom != DeleteAtom(CardRef(db.cards[k].cardId))
    ensures k in Run(db, h).cards && Run(db, h).cards[k].cardId == db.cards[k].cardId
  {
    if |h| > 0 {
      var before := Run(db, h[..|h| - 1]);
      CardIdIsStable(db, h[..|h| - 1], k);
      WritesAreWellWritten(before, h[|h| - 1]);
    }
  }

  // ------------------------------------------------------------- clock bound --

  ghost predicate ClocksBounded(db: Db) {
    && (forall r :: r in db.records ==> ClockBounded(db.records[r].modifiedAt, db.records[r].clientModifiedAt))
    && (forall k :: k in db.cards ==> ClockBounded(db.cards[k].modifiedAt, db.cards[k].clientModifiedAt))
  }

  /** Every row of every reachable state respects the bound that pulls rely on. */
  lemma {:induction false} RunKeepsClocksBounded(db: Db, h: seq<Event>)
    requires ClocksBounded(db)
    ensures ClocksBounded(Run(db, h))
  {
    if |h| > 0 {
      RunKeepsClocksBounded(db, h[..|h| - 1]);
      WritesAreWellWritten(Run(db, h[..|h| - 1]), h[|h| - 1]);
    }
  }

  // ----------------------------------------------------------- version chain --

  /** One accepted change of a guarded resource: the base it named, the version it stored. */
  datatype Edit = Edit(base: Digest, next: Digest)

  function EditOf(db: Db, e: Event, r: GuardedRef): seq<Edit>
    requires r in db.records
  {
    var w := WritesOf(db, e);
    if r in w.records && DigestOf(w.records[r].content) != DigestOf(db.records[r].content) then
      [Edit(if e.atom.PutAtom? then e.atom.put.base else NoDigest, DigestOf(w.records[r].content))]
    else []
  }

  /** The changes of `r` along a run, in order. */
  function Edits(db: Db, h: seq<Event>, r: GuardedRef): seq<Edit> {
    if |h| == 0 then []
    else
      var before := Run(db, h[..|h| - 1]);
      Edits(db, h[..|h| - 1], r) + (if r in before.records then EditOf(before, h[|h| - 1], r) else [])
  }

  /** Each change names the version it replaces, from `start` to `finish`. */
  predicate Chain(start: Digest, edits: seq<Edit>, finish: Digest) {
    if |edits| == 0 then start == finish
    else
      var last := edits[|edits| - 1];
      last.next == finish && last.base != finish && Chain(start, edits[..|edits| - 1], last.base)
  }

  predicate Unforced(e: Event) {
    e.atom.PutAtom? ==> !e.atom.force
  }

  lemma GuardedStep(db: Db, e: Event, r: GuardedRef)
    requires r in db.records && Unforced(e) && e.atom != DeleteAtom(r)
    ensures r in Apply(db, e).records
    ensures var was, now := DigestOf(db.records[r].content), DigestOf(Apply(db, e).records[r].content);
      EditOf(db, e, r) == if was == now then [] else [Edit(was, now)]
  {
    var w := WritesOf(db, e);
    if !e.atom.DeleteAtom? && r in w.records {
      assert Apply(db, e).records[r] == w.records[r];
    } else {
      assert Apply(db, e).records[r] == db.records[r];
    }
  }

  /**
   * Without forced writes and deletes, the versions of a note, notetype or deck
   * form a chain: no change ever replaces a version its writer had not seen.
   */
  lemma {:induction false} EditsFormAChain(db: Db, h: seq<Event>, r: GuardedRef)
    requires r in db.records
    requires forall e <- h :: Unforced(e) && e.atom != DeleteAtom(r)
    ensures r in Run(db, h).records
    ensures Chain(DigestOf(db.records[r].content), Edits(db, h, r), DigestOf(Run(db, h).records[r].content))
  {
    if |h| > 0 {
      var before := Run(db, h[..|h| - 1]);
      var e := h[|h| - 1];
      EditsFormAChain(db, h[..|h| - 1], r);
      GuardedStep(before, e, r);
      var edits, edit := Edits(db, h[..|h| - 1], r), EditOf(before, e, r);
      if edit == [] {
        assert edits + edit == edits;
      } else {
        assert (edits + edit)[..|edits + edit| - 1] == edits;
      }
    }
  }

  // -------------------------------------------------------------- stale plans --

  ghost predicate DistinctRefs(ps: seq<Put>) {
    forall i, j :: 0 <= i < j < |ps| ==> ps[i].ref != ps[j].ref
  }

  predicate Unseen(rows: map<GuardedRef, Record>, p: Put) {
    p.ref in rows && DigestOf(rows[p.ref].content) !in {p.base, DigestOf(p.content)}
  }

  function StoredAs(p: Put, now: int): Record {
    Record(p.content, now, UtcWriteTime(now, p.clientModifiedAt))
  }

  /** The guarded rows after an unforced batch, and the items it reports. */
  function PutRows(rows: map<GuardedRef, Record>, ps: seq<Put>, now: int): map<GuardedRef, Record> {
    if |ps| == 0 then rows
    else
      var before, p := PutRows(rows, ps[..|ps| - 1], now), ps[|ps| - 1];
      if Unseen(before, p) then before else before[p.ref := StoredAs(p, now)]
  }

  function Reported(rows: map<GuardedRef, Record>, ps: seq<Put>, now: int): seq<Put> {
    if |ps| == 0 then []
    else
      var p := ps[|ps| - 1];
      Reported(rows, ps[..|ps| - 1], now) + (if Unseen(PutRows(rows, ps[..|ps| - 1], now), p) then [p] else [])
  }

  lemma UnforcedPut(db: Db, p: Put, now: int)
    ensures Accepts(db, p, false) <==> !Unseen(db.records, p)
    ensures Apply(db, Event(now, PutAtom(p, false))).records ==
            if Unseen(db.records, p) then db.records else db.records[p.ref := StoredAs(p, now)]
  {
  }

  /** An unforced batch acts on the guarded rows alone. */
  lemma {:induction false} UnforcedBatch(db: Db, ps: seq<Put>, now: int)
    ensures Run(db, PutEvents(ps, false, now)).records == PutRows(db.records, ps, now)
    ensures Conflicts(db, ps, false, now) == Reported(db.records, ps, now)
  {
    hide Apply;
    hide Accepts;
    if |ps| > 0 {
      var h := PutEvents(ps, false, now);
      UnforcedBatch(db, ps[..|ps| - 1], now);
      assert h[..|ps| - 1] == PutEvents(ps[..|ps| - 1], false, now);
      UnforcedPut(Run(db, h[..|ps| - 1]), ps[|ps| - 1], now);
    }
  }

  /** Rows outside the batch stay, and only items of the batch are reported. */
  lemma {:induction false} PutsTouchOnlyTheirRefs(rows: map<GuardedRef, Record>, ps: seq<Put>, now: int)
    ensures forall r :: r in rows ==> r in PutRows(rows, ps, now)
    ensures forall r: GuardedRef :: (forall p <- ps :: p.ref != r) && r in PutRows(rows, ps, now) ==>
            r in rows && PutRows(rows, ps, now)[r] == rows[r]
    ensures forall p <- Reported(rows, ps, now) :: p in ps
  {
    if |ps| > 0 {
      PutsTouchOnlyTheirRefs(rows, ps[..|ps| - 1], now);
    }
  }

  lemma {:induction false} ItemOutcome(rows: map<GuardedRef, Record>, ps: seq<Put>, now: int, p: Put)
    requires DistinctRefs(ps) && p in ps
    ensures p in Reported(rows, ps, now) <==> Unseen(rows, p)
    ensures p.ref in PutRows(rows, ps, now)
    ensures PutRows(rows, ps, now)[p.ref] == if Unseen(rows, p) then rows[p.ref] else StoredAs(p, now)
  {
    var earlier, last := ps[..|ps| - 1], ps[|ps| - 1];
    PutsTouchOnlyTheirRefs(rows, earlier, now);
    if p in earlier {
      ItemOutcome(rows, earlier, now, p);
      assert p.ref != last.ref;
    }
  }

  /**
   * A batch pushed unforced against any server state, whatever happened since it
   * was planned: a resource that is live at neither its base nor the pushed
   * content keeps its row and is reported, every other one is stored as pushed.
   */
  lemma StalePlanNeverOverwrites(db: Db, ps: seq<Put>, now: int, p: Put)
    requires DistinctRefs(ps) && p in ps
    ensures p in Conflicts(db, ps, false, now) <==> Unseen(db.records, p)
    ensures p.ref in Run(db, PutEvents(ps, false, now)).records
    ensures Run(db, PutEvents(ps, false, now)).records[p.ref] ==
            if Unseen(db.records, p) then db.records[p.ref] else StoredAs(p, now)
  {
    UnforcedBatch(db, ps, now);
    ItemOutcome(db.records, ps, now, p);
  }

  // --------------------------------------------------- append-only review log --

  /** Over every run no stored review changes or disappears. */
  lemma {:induction false} ReviewsAreAppendOnly(db: Db, h: seq<Event>, id: int)
    requires id in db.reviews
    ensures id in Run(db, h).reviews && Run(db, h).reviews[id] == db.reviews[id]
  {
    if |h| > 0 {
      ReviewsAreAppendOnly(db, h[..|h| - 1], id);
      WritesAreWellWritten(Run(db, h[..|h| - 1]), h[|h| - 1]);
    }
  }

  // ------------------------------------------------------ study-day semilattice --

  function Counter(c: Counters, field: int): int {
    match field
    case 0 => c.newStudied
    case 1 => c.reviewStudied
    case 2 => c.learningStudied
    case _ => c.millis
  }

  /** `c` is the pointwise maximum of a non-empty set of snapshots. */
  ghost predicate IsJoin(c: Counters, s: set<Counters>) {
    forall field {:trigger Counter(c, field)} :: 0 <= field < 4 ==>
      && (forall x <- s :: Counter(x, field) <= Counter(c, field))
      && (exists x <- s :: Counter(x, field) == Counter(c, field))
  }

  /** Everything known about one day of one deck: the initial row and all pushes. */
  function Snapshots(db: Db, h: seq<Event>, k: StudyKey): set<Counters> {
    if |h| == 0 then (if k in db.studyDays then {db.studyDays[k].value} else {})
    else
      var a := h[|h| - 1].atom;
      Snapshots(db, h[..|h| - 1], k) + (if a.StudyAtom? && a.study.key == k then {a.study.counters} else {})
  }

  lemma JoinExtends(c: Counters, s: set<Counters>, x: Counters)
    requires IsJoin(c, s)
    ensures IsJoin(MaxCounters(c, x), s + {x})
  {
    var m := MaxCounters(c, x);
    forall field | 0 <= field < 4
      ensures forall y <- s + {x} :: Counter(y, field) <= Counter(m, field)
      ensures exists y <- s + {x} :: Counter(y, field) == Counter(m, field)
    {
      assert Counter(m, field) == Max(Counter(c, field), Counter(x, field));
      var y :| y in s && Counter(y, field) == Counter(c, field);
      assert y in s + {x} && x in s + {x};
    }
  }

  /** A server row is the pointwise maximum of everything ever pushed to it. */
  lemma {:induction false} StudyDayIsTheJoin(db: Db, h: seq<Event>, k: StudyKey)
    ensures k in Run(db, h).studyDays <==> Snapshots(db, h, k) != {}
    ensures k in Run(db, h).studyDays ==> IsJoin(Run(db, h).studyDays[k].value, Snapshots(db, h, k))
  {
    if |h| == 0 {
      if k in db.studyDays {
        assert db.studyDays[k].value in Snapshots(db, h, k);
      }
    } else {
      var before := Run(db, h[..|h| - 1]);
      var e := h[|h| - 1];
      StudyDayIsTheJoin(db, h[..|h| - 1], k);
      if e.atom.StudyAtom? && e.atom.study.key == k {
        var x := e.atom.study.counters;
        if k in before.studyDays {
          JoinExtends(before.studyDays[k].value, Snapshots(db, h[..|h| - 1], k), x);
        } else {
          assert Snapshots(db, h, k) == {x};
          assert x in {x};
        }
      }
    }
  }

  /** Order, repetition and interleaving of the pushes do not matter. */
  lemma StudyDayIsOrderIndependent(db: Db, h1: seq<Event>, h2: seq<Event>, k: StudyKey)
    requires Snapshots(db, h1, k) == Snapshots(db, h2, k) != {}
    ensures k in Run(db, h1).studyDays && k in Run(db, h2).studyDays
    ensures Run(db, h1).studyDays[k].value == Run(db, h2).studyDays[k].value
  {
    StudyDayIsTheJoin(db, h1, k);
    StudyDayIsTheJoin(db, h2, k);
    var a, b := Run(db, h1).studyDays[k].value, Run(db, h2).studyDays[k].value;
    forall field | 0 <= field < 4
      ensures Counter(a, field) == Counter(b, field)
    {
    }
    assert Counter(a, 0) == Counter(b, 0) && Counter(a, 1) == Counter(b, 1);
    assert Counter(a, 2) == Counter(b, 2) && Counter(a, 3) == Counter(b, 3);
  }

  // ------------------------------------------------- cards: last writer wins --

  /** What a card write decides: everything but the canonical id and receipt time. */
  datatype Version = Version(deck: string, scheduling: Scheduling, at: int)

  function VersionOf(c: Card): Version {
    Version(c.deck, c.scheduling, c.clientModifiedAt)
  }

  function Pushes(h: seq<Event>, k: CardKey): seq<Version> {
    if |h| == 0 then []
    else
      var a := h[|h| - 1].atom;
      Pushes(h[..|h| - 1], k) +
      (if a.CardAtom? && a.card.key == k then [Version(a.card.deck, a.card.scheduling, a.card.clientModifiedAt)] else [])
  }

  function Candidates(db: Db, h: seq<Event>, k: CardKey): seq<Version> {
    (if k in db.cards then [VersionOf(db.cards[k])] else []) + Pushes(h, k)
  }

  ghost predicate IsNewest(v: Version, vs: seq<Version>) {
    v in vs && forall u <- vs :: u.at <= v.at
  }

  /** The two requests that write card `k` without being a push of it. */
  predicate CreatesOrDeletes(db: Db, a: Atom, k: CardKey) {
    || (a.ImmersionAtom? && CardKey(a.request.guid, a.request.ord) == k)
    || (a.DeleteAtom? && k in db.cards && a.ref == CardRef(db.cards[k].cardId))
  }

  /** Only pushes, whose clocks the server accepts as they are, reach card `k`. */
  ghost predicate OnlyUnclampedPushes(db: Db, h: seq<Event>, k: CardKey) {
    k.guid != "" && (|h| > 0 ==>
      var e := h[|h| - 1];
      && OnlyUnclampedPushes(db, h[..|h| - 1], k)
      && !CreatesOrDeletes(Run(db, h[..|h| - 1]), e.atom, k)
      && (e.atom.CardAtom? && e.atom.card.key == k ==>
          UtcWriteTime(e.at, e.atom.card.clientModifiedAt) == e.atom.card.clientModifiedAt))
  }

  lemma PushStep(db: Db, e: Event, k: CardKey)
    requires k.guid != "" && !CreatesOrDeletes(db, e.atom, k)
    requires e.atom.CardAtom? && e.atom.card.key == k ==>
      UtcWriteTime(e.at, e.atom.card.clientModifiedAt) == e.atom.card.clientModifiedAt
    ensures var db' := Apply(db, e);
      if e.atom.CardAtom? && e.atom.card.key == k then
        var c := e.atom.card;
        var stays := k in db.cards && db.cards[k].clientModifiedAt > c.clientModifiedAt;
        k in db'.cards && VersionOf(db'.cards[k]) ==
          if stays then VersionOf(db.cards[k]) else Version(c.deck, c.scheduling, c.clientModifiedAt)
      else (k in db'.cards <==> k in db.cards) && (k in db.cards ==> db'.cards[k] == db.cards[k])
  {
  }

  lemma {:induction false} NewestPushIsStored(db: Db, h: seq<Event>, k: CardKey)
    requires OnlyUnclampedPushes(db, h, k)
    ensures k in Run(db, h).cards <==> Candidates(db, h, k) != []
    ensures k in Run(db, h).cards ==> IsNewest(VersionOf(Run(db, h).cards[k]), Candidates(db, h, k))
  {
    hide Apply;
    if |h| > 0 {
      var h0, e := h[..|h| - 1], h[|h| - 1];
      NewestPushIsStored(db, h0, k);
      PushStep(Run(db, h0), e, k);
      if e.atom.CardAtom? && e.atom.card.key == k {
        var v := Version(e.atom.card.deck, e.atom.card.scheduling, e.atom.card.clientModifiedAt);
        assert Candidates(db, h, k) == Candidates(db, h0, k) + [v];
      } else {
        assert Candidates(db, h, k) == Candidates(db, h0, k);
      }
    }
  }

  /**
   * Cards are an order-independent last-writer-wins register: with distinct
   * source times, every order of the same pushes, spread over any batches and
   * mixed with any requests that neither create nor delete this card in another
   * way, ends with the same deck, scheduling and time.
   */
  lemma LastWriterWins(db: Db, h1: seq<Event>, h2: seq<Event>, k: CardKey)
    requires OnlyUnclampedPushes(db, h1, k) && OnlyUnclampedPushes(db, h2, k)
    requires multiset(Pushes(h1, k)) == multiset(Pushes(h2, k))
    requires forall u, v :: u in Candidates(db, h1, k) && v in Candidates(db, h1, k) && u.at == v.at ==> u == v
    requires Candidates(db, h1, k) != []
    ensures k in Run(db, h1).cards && k in Run(db, h2).cards
    ensures VersionOf(Run(db, h1).cards[k]) == VersionOf(Run(db, h2).cards[k])
  {
    NewestPushIsStored(db, h1, k);
    NewestPushIsStored(db, h2, k);
    forall v
      ensures v in Candidates(db, h1, k) <==> v in Candidates(db, h2, k)
    {
      assert v in Pushes(h1, k) <==> v in multiset(Pushes(h1, k));
      assert v in Pushes(h2, k) <==> v in multiset(Pushes(h2, k));
    }
    assert Candidates(db, h1, k)[0] in Candidates(db, h1, k);
  }

  /** Clamped or not, the stored source time never decreases between deletes. */
  lemma {:induction false} CardTimeNeverDecreases(db: Db, h: seq<Event>, k: CardKey)
    requires k in db.cards
    requires forall e <- h :: e.atom != DeleteAtom(CardRef(db.cards[k].cardId))
    ensures k in Run(db, h).cards
    ensures db.cards[k].clientModifiedAt <= Run(db, h).cards[k].clientModifiedAt
  {
    CardIdIsStable(db, h, k);
    if |h| > 0 {
      CardIdIsStable(db, h[..|h| - 1], k);
      CardTimeNeverDecreases(db, h[..|h| - 1], k);
    }
  }
}
