// Append-only review history across any number of clients
// (review_sync.py: sync_reviews_once, _apply_review, _review_card_map).

module ReviewSync {
  import opened Prelude
  import opened ServerSpec
  import opened Anki
  import opened Server

  // -------------------------------------------------------------- local view --

  function LocalDigest(l: Local, id: int): ReviewDigest
    requires id in l.revlog
  {
    var key := Identity(l, l.revlog[id].cid);
    ReviewDigest(key.guid, key.ord, l.revlog[id].body)
  }

  predicate Orphan(l: Local, id: int)
    requires id in l.revlog
  {
    Identity(l, l.revlog[id].cid).guid == ""
  }

  predicate HasNote(l: Local, cid: int) {
    cid in l.cards && l.cards[cid].nid in l.notes
  }

  /** A collection the sync accepts: positive ids and no duplicated logical card. */
  ghost predicate Sound(l: Local) {
    && (forall cid :: cid in l.cards ==> cid > 0)
    && (forall id :: id in l.revlog ==> id > 0)
    && (forall c1, c2 ::
          c1 in l.cards && c2 in l.cards && Identity(l, c1) == Identity(l, c2) && Identity(l, c1).guid != "" ==> c1 == c2)
  }

  function Abs(x: int): int {
    if x < 0 then -x else x
  }

  ghost predicate HasCard(l: Local, key: CardKey) {
    exists c :: c in l.cards && Identity(l, c) == key
  }

  /**
   * The local card id a pulled review may get: the card of the same identity; else
   * its own source id, unless that id belongs to some other note's card; else a
   * negative id, which no card has.
   */
  ghost predicate Attachment(l: Local, id: int, r: Review, cid: int) {
    if r.guid != "" && HasCard(l, CardKey(r.guid, r.ord)) then
      cid in l.cards && Identity(l, cid) == CardKey(r.guid, r.ord)
    else
      || (cid == r.sourceCardId && cid != 0 && Identity(l, cid).guid == "")
      || (cid == -Abs(if r.sourceCardId != 0 then r.sourceCardId else id))
  }

  // --------------------------------------------------------------- one pass --

  predicate Conflicting(l: Local, db: Db, id: int) {
    && id in l.revlog && id in db.reviews
    && !Orphan(l, id)
    && ReviewDigestOf(db.reviews[id].value) != LocalDigest(l, id)
  }

  ghost predicate HasConflict(l: Local, db: Db) {
    exists id :: Conflicting(l, db, id)
  }

  /** A review as this collection uploads it. */
  predicate IsUpload(l: Local, id: int, r: Review)
    requires id in l.revlog
  {
    r.sourceCardId == l.revlog[id].cid && ReviewDigestOf(r) == LocalDigest(l, id) && InHomeDeck(l, l.revlog[id].cid, r.deck)
  }

  /** The deck a known card belongs to: while a filtered deck borrows it, the one it came from. */
  predicate InHomeDeck(l: Local, cid: int, deck: string) {
    cid in l.cards ==>
      var odid := l.cards[cid].scheduling.odid;
      (odid == 0 ==> deck == l.cards[cid].deck) && (odid != 0 && odid in l.deckNames ==> deck == l.deckNames[odid])
  }

  /** The answered card is in one of the selected decks, or borrowed from one. */
  predicate Answered(l: Local, names: Option<set<string>>, id: int) {
    id in l.revlog &&
    (names.None? ||
     var cid := l.revlog[id].cid;
     cid in l.cards &&
     var odid := l.cards[cid].scheduling.odid;
     InScope(l.cards[cid].deck, names.value) || (odid != 0 && InScope(if odid in l.deckNames then l.deckNames[odid] else "", names.value)))
  }

  /** Every listed review is in the collection, every selected one on the server, and nothing else is new there. */
  ghost predicate Merged(l: Local, names: Option<set<string>>, viewed: set<int>, db: Db, l': Local, db': Db) {
    && (forall id :: id in viewed ==> id in l'.revlog && (id !in l.revlog ==> id in db.reviews && l'.revlog[id].body == db.reviews[id].value.body))
    && (forall id :: Answered(l, names, id) ==> id in viewed || id in db'.reviews)
    && (forall id :: id in db'.reviews && id !in db.reviews ==> Answered(l, names, id) && db'.reviews[id].value.body == l.revlog[id].body)
    && (forall id :: id in db.reviews ==> id in db'.reviews && db'.reviews[id] == db.reviews[id])
  }

  /** The collection gains exactly the rows it lacks, and loses or alters none. */
  ghost predicate Downloaded(l: Local, db: Db, l': Local) {
    && l' == l.(revlog := l'.revlog)
    && l'.revlog.Keys == l.revlog.Keys + db.reviews.Keys
    && (forall id :: id in l.revlog ==>
        l'.revlog[id].cid == l.revlog[id].cid && l'.revlog[id].body == l.revlog[id].body)
    && (forall id :: id in db.reviews && id !in l.revlog ==>
        l'.revlog[id].body == db.reviews[id].value.body && Attachment(l, id, db.reviews[id].value, l'.revlog[id].cid))
  }

  /** The server gains exactly the rows it lacks, and keeps every one it has. */
  ghost predicate Uploaded(l: Local, db: Db, db': Db) {
    && db' == db.(reviews := db'.reviews)
    && db'.reviews.Keys == db.reviews.Keys + l.revlog.Keys
    && (forall id :: id in db.reviews ==> db'.reviews[id] == db.reviews[id])
    && (forall id :: id in l.revlog && id !in db.reviews ==> IsUpload(l, id, db'.reviews[id].value))
  }

  /** A conflict ends the pass before anything is written on either side. */
  ghost predicate HistoryPass(l: Local, db: Db, l': Local, db': Db) {
    if HasConflict(l, db) then l' == l && db' == db
    else Downloaded(l, db, l') && Uploaded(l, db, db')
  }

  // A pass limited to some decks compares the rows it shows with those the manifest lists.

  /** The answered card, or the deck it was borrowed from, is in one of the selected decks. */
  predicate ReviewInScope(l: Local, names: Option<set<string>>, id: int)
    requires id in l.revlog
  {
    names.None? ||
    var cid := l.revlog[id].cid;
    cid in l.cards && (InScope(l.cards[cid].deck, names.value) || (l.cards[cid].scheduling.odid != 0 && InScope(HomeDeck(l, cid), names.value)))
  }

  function ShownReviews(l: Local, names: Option<set<string>>): set<int> {
    set id | id in l.revlog && ReviewInScope(l, names, id)
  }

  predicate VisibleConflict(l: Local, db: Db, shown: set<int>, viewed: set<int>, id: int) {
    id in shown && id in viewed && Conflicting(l, db, id)
  }

  /** The server holds another review of this id, out of the pass's sight. */
  predicate HiddenClash(l: Local, db: Db, shown: set<int>, viewed: set<int>, id: int) {
    && id in shown && id !in viewed && id in l.revlog && id in db.reviews
    && ReviewDigestOf(db.reviews[id].value) != LocalDigest(l, id)
  }

  /** The collection gains the viewed rows it lacks, and loses or alters none. */
  ghost predicate DownloadedIn(l: Local, db: Db, viewed: set<int>, l': Local) {
    && l' == l.(revlog := l'.revlog)
    && l'.revlog.Keys == l.revlog.Keys + viewed
    && (forall id :: id in l.revlog ==>
        l'.revlog[id].cid == l.revlog[id].cid && l'.revlog[id].body == l.revlog[id].body)
    && (forall id :: id in viewed && id !in l.revlog ==>
        id in db.reviews && l'.revlog[id].body == db.reviews[id].value.body && Attachment(l, id, db.reviews[id].value, l'.revlog[id].cid))
  }

  /** The server gains those of the given rows it lacks, and keeps every one it has. */
  ghost predicate UploadedIn(l: Local, db: Db, ids: set<int>, db': Db) {
    && db' == db.(reviews := db'.reviews) && ids <= l.revlog.Keys
    && db'.reviews.Keys == db.reviews.Keys + ids
    && (forall id :: id in db.reviews ==> db'.reviews[id] == db.reviews[id])
    && (forall id :: id in ids && id !in db.reviews ==> IsUpload(l, id, db'.reviews[id].value))
  }

  /**
   * A visible conflict ends the pass before anything is written.  A hidden clash
   * ends it during the uploads, after the batch that met it.
   */
  ghost predicate HistoryPassIn(l: Local, db: Db, names: Option<set<string>>, viewed: set<int>, l': Local, db': Db, stored: set<int>) {
    var shown := ShownReviews(l, names);
    if exists id :: VisibleConflict(l, db, shown, viewed, id) then l' == l && db' == db
    else
      && DownloadedIn(l, db, viewed, l') && UploadedIn(l, db, stored, db') && stored <= shown - viewed
      && if exists id :: HiddenClash(l, db, shown, viewed, id) then exists id :: HiddenClash(l, db, shown, viewed, id) && id in stored
         else stored == shown - viewed
  }

  /** Without a selection this is the plain pass, in which nothing clashes out of sight. */
  lemma SeeingAllIsPlain(l: Local, db: Db, l': Local, db': Db, stored: set<int>)
    requires HistoryPassIn(l, db, None, db.reviews.Keys, l', db', stored)
    ensures HistoryPass(l, db, l', db')
    ensures forall id :: !HiddenClash(l, db, ShownReviews(l, None), db.reviews.Keys, id)
    ensures forall id :: VisibleConflict(l, db, ShownReviews(l, None), db.reviews.Keys, id) <==> Conflicting(l, db, id)
  {
    hide Attachment;
    hide IsUpload;
    hide LocalDigest;
    hide Orphan;
    assert ShownReviews(l, None) == l.revlog.Keys;
    assert forall id :: VisibleConflict(l, db, ShownReviews(l, None), db.reviews.Keys, id) <==> Conflicting(l, db, id);
  }

  // ------------------------------------------------------------- many clients --

  datatype World = World(server: Db, clients: seq<Local>)

  ghost predicate SoundWorld(w: World) {
    && (forall l <- w.clients :: Sound(l))
    && (forall id :: id in w.server.reviews ==> id > 0)
  }

  /** One client passes; nobody else moves. */
  ghost predicate Pass(w: World, i: nat, w': World) {
    && i < |w.clients| && |w'.clients| == |w.clients|
    && w'.clients == w.clients[i := w'.clients[i]]
    && HistoryPass(w.clients[i], w.server, w'.clients[i], w'.server)
  }

  ghost predicate Trace(ws: seq<World>, visits: seq<nat>) {
    && |ws| == |visits| + 1
    && forall n :: 0 <= n < |visits| ==> Pass(ws[n], visits[n], ws[n + 1])
  }

  /** What this client's row says of the review `d`: same answer, and same card if it still knows one. */
  predicate Agrees(l: Local, id: int, d: ReviewDigest)
    requires id in l.revlog
  {
    l.revlog[id].body == d.body && (!Orphan(l, id) ==> LocalDigest(l, id) == d)
  }

  /**
   * Every row agrees with the server's row of that id, or, while the server has
   * none, with what any client would upload.
   */
  ghost predicate Compatible(w: World) {
    && (forall i, id :: 0 <= i < |w.clients| && id in w.clients[i].revlog && id in w.server.reviews ==>
        Agrees(w.clients[i], id, ReviewDigestOf(w.server.reviews[id].value)))
    && (forall i, j, id :: (0 <= i < |w.clients| && 0 <= j < |w.clients|
          && id in w.clients[i].revlog && id in w.clients[j].revlog && id !in w.server.reviews) ==>
          Agrees(w.clients[j], id, LocalDigest(w.clients[i], id)))
  }

  ghost predicate Held(w: World, id: int) {
    id in w.server.reviews || exists i :: 0 <= i < |w.clients| && id in w.clients[i].revlog
  }

  /** Everyone holds the same ids, and every row agrees with the server's. */
  ghost predicate Converged(w: World) {
    forall i :: 0 <= i < |w.clients| ==>
      && w.clients[i].revlog.Keys == w.server.reviews.Keys
      && forall id :: id in w.clients[i].revlog ==> Agrees(w.clients[i], id, ReviewDigestOf(w.server.reviews[id].value))
  }

  /** A remapped, orphaned or negative-id row that was pulled agrees with the server. */
  lemma PulledRowAgrees(l: Local, db: Db, l': Local, id: int)
    requires Sound(l) && Downloaded(l, db, l') && id in db.reviews && id !in l.revlog && id > 0
    ensures Agrees(l', id, ReviewDigestOf(db.reviews[id].value))
  {
    var cid := l'.revlog[id].cid;
    assert Identity(l', cid) == Identity(l, cid);
  }

  lemma KeptRowAgrees(l: Local, db: Db, l': Local, id: int, d: ReviewDigest)
    requires Downloaded(l, db, l') && id in l.revlog
    ensures Agrees(l', id, d) <==> Agrees(l, id, d)
    ensures LocalDigest(l', id) == LocalDigest(l, id)
    ensures Orphan(l', id) <==> Orphan(l, id)
  {
    assert Identity(l', l'.revlog[id].cid) == Identity(l, l.revlog[id].cid);
  }

  lemma CompatibleIsConflictFree(w: World, i: nat)
    requires i < |w.clients| && Compatible(w)
    ensures !HasConflict(w.clients[i], w.server)
  {
  }

  lemma PassKeepsSound(w: World, i: nat, w': World)
    requires Pass(w, i, w') && SoundWorld(w)
    ensures SoundWorld(w')
  {
    var l, l' := w.clients[i], w'.clients[i];
    if !HasConflict(l, w.server) {
      assert forall c :: Identity(l', c) == Identity(l, c);
      assert Sound(l);
      assert Sound(l');
    }
    forall x | x in w'.clients
      ensures Sound(x)
    {
      var j :| 0 <= j < |w'.clients| && w'.clients[j] == x;
      if j != i { assert w'.clients[j] == w.clients[j]; }
    }
  }

  lemma PassKeepsIds(w: World, i: nat, w': World, id: int)
    requires Pass(w, i, w')
    ensures Held(w', id) <==> Held(w, id)
  {
    if j :| 0 <= j < |w.clients| && id in w.clients[j].revlog {
      assert id in w'.clients[j].revlog;
    }
    if j :| 0 <= j < |w'.clients| && id in w'.clients[j].revlog {
      assert id in w.clients[j].revlog || id in w.server.reviews;
    }
  }

  lemma RowAgreesAfterPass(w: World, i: nat, w': World, j: nat, id: int)
    requires Pass(w, i, w') && SoundWorld(w) && Compatible(w)
    requires j < |w'.clients| && id in w'.clients[j].revlog && id in w'.server.reviews
    ensures Agrees(w'.clients[j], id, ReviewDigestOf(w'.server.reviews[id].value))
  {
    var l, l' := w.clients[i], w'.clients[i];
    CompatibleIsConflictFree(w, i);
    assert Sound(l);
    if j == i {
      if id in l.revlog {
        KeptRowAgrees(l, w.server, l', id, ReviewDigestOf(w'.server.reviews[id].value));
      } else {
        PulledRowAgrees(l, w.server, l', id);
      }
    } else {
      assert w'.clients[j] == w.clients[j];
    }
  }

  lemma PassKeepsCompatible(w: World, i: nat, w': World)
    requires Pass(w, i, w') && SoundWorld(w) && Compatible(w)
    ensures Compatible(w')
  {
    CompatibleIsConflictFree(w, i);
    forall j: nat, id | j < |w'.clients| && id in w'.clients[j].revlog && id in w'.server.reviews
      ensures Agrees(w'.clients[j], id, ReviewDigestOf(w'.server.reviews[id].value))
    {
      RowAgreesAfterPass(w, i, w', j, id);
    }
    forall j, k, id | 0 <= j < |w'.clients| && 0 <= k < |w'.clients|
                      && id in w'.clients[j].revlog && id in w'.clients[k].revlog && id !in w'.server.reviews
      ensures Agrees(w'.clients[k], id, LocalDigest(w'.clients[j], id))
    {
      assert w'.clients[i].revlog.Keys <= w'.server.reviews.Keys;
      assert w'.clients[j] == w.clients[j] && w'.clients[k] == w.clients[k];
    }
  }

  // -------------------------------------------------------------- convergence --

  ghost predicate Covers(visits: seq<nat>, clients: nat) {
    forall i: nat :: i < clients ==> i in visits
  }

  /** No pass of the trace changes or drops a row anywhere. */
  lemma {:induction false} RowsAreKept(ws: seq<World>, visits: seq<nat>, i: nat)
    requires Trace(ws, visits) && i < |ws[0].clients|
    ensures var w, w' := ws[0], ws[|visits|];
      && |w'.clients| == |w.clients|
      && w'.clients[i] == w.clients[i].(revlog := w'.clients[i].revlog)
      && (forall id :: id in w.clients[i].revlog ==>
            && id in w'.clients[i].revlog
            && w'.clients[i].revlog[id].cid == w.clients[i].revlog[id].cid
            && w'.clients[i].revlog[id].body == w.clients[i].revlog[id].body)
      && (forall id :: id in w.server.reviews ==> id in w'.server.reviews && w'.server.reviews[id] == w.server.reviews[id])
  {
    if |visits| > 0 {
      var n := |visits| - 1;
      RowsAreKept(ws[..n + 1], visits[..n], i);
      assert Pass(ws[n], visits[n], ws[n + 1]);
    }
  }

  lemma {:induction false} TraceKeeps(ws: seq<World>, visits: seq<nat>)
    requires Trace(ws, visits) && SoundWorld(ws[0]) && Compatible(ws[0])
    ensures SoundWorld(ws[|visits|]) && Compatible(ws[|visits|])
    ensures |ws[|visits|].clients| == |ws[0].clients|
    ensures forall id :: Held(ws[|visits|], id) <==> Held(ws[0], id)
    ensures ws[0].server.reviews.Keys <= ws[|visits|].server.reviews.Keys
  {
    if |visits| > 0 {
      var n := |visits| - 1;
      TraceKeeps(ws[..n + 1], visits[..n]);
      assert Pass(ws[n], visits[n], ws[n + 1]);
      PassKeepsSound(ws[n], visits[n], ws[n + 1]);
      PassKeepsCompatible(ws[n], visits[n], ws[n + 1]);
      forall id { PassKeepsIds(ws[n], visits[n], ws[n + 1], id); }
    }
  }

  /** A client that passed has given the server everything it held at the start. */
  lemma {:induction false} VisitUploads(ws: seq<World>, visits: seq<nat>, i: nat)
    requires Trace(ws, visits) && SoundWorld(ws[0]) && Compatible(ws[0])
    requires i in visits && i < |ws[0].clients|
    ensures |ws[|visits|].clients| == |ws[0].clients|
    ensures ws[0].clients[i].revlog.Keys <= ws[|visits|].server.reviews.Keys
  {
    hide IsUpload;
    hide Attachment;
    hide Agrees;
    hide HasConflict;
    var n := |visits| - 1;
    var before := ws[..n + 1];
    TraceKeeps(before, visits[..n]);
    RowsAreKept(before, visits[..n], i);
    assert Pass(ws[n], visits[n], ws[n + 1]);
    CompatibleIsConflictFree(ws[n], visits[n]);
    if visits[n] != i {
      VisitUploads(before, visits[..n], i);
    } else {
      assert before[0] == ws[0] && before[n] == ws[n];
      forall id | id in ws[0].clients[i].revlog ensures id in ws[n].clients[i].revlog { }
    }
  }

  /** Once the server holds everything, a client that passes holds everything. */
  lemma {:induction false} VisitDownloads(ws: seq<World>, visits: seq<nat>, i: nat)
    requires Trace(ws, visits) && SoundWorld(ws[0]) && Compatible(ws[0])
    requires i in visits && i < |ws[0].clients|
    requires forall id :: Held(ws[0], id) ==> id in ws[0].server.reviews
    ensures |ws[|visits|].clients| == |ws[0].clients|
    ensures ws[|visits|].server.reviews.Keys == ws[0].server.reviews.Keys == ws[|visits|].clients[i].revlog.Keys
  {
    hide IsUpload;
    hide Attachment;
    hide Agrees;
    hide HasConflict;
    var n := |visits| - 1;
    var before := ws[..n + 1];
    TraceKeeps(before, visits[..n]);
    TraceKeeps(ws, visits);
    assert Pass(ws[n], visits[n], ws[n + 1]);
    CompatibleIsConflictFree(ws[n], visits[n]);
    forall id | id in ws[n + 1].server.reviews || id in ws[n + 1].clients[i].revlog
      ensures id in ws[0].server.reviews
    {
      assert Held(ws[n + 1], id);
    }
    if visits[n] != i {
      VisitDownloads(before, visits[..n], i);
    }
  }

  /**
   * Review logs converge for any number of clients: once every client has passed
   * and then every client has passed again, in any order, all hold exactly the
   * ids anyone held, every row agrees with the server's, and no pass conflicts.
   */
  lemma ReviewLogsConverge(first: seq<World>, v1: seq<nat>, second: seq<World>, v2: seq<nat>)
    requires Trace(first, v1) && Trace(second, v2) && first[|v1|] == second[0]
    requires SoundWorld(first[0]) && Compatible(first[0])
    requires Covers(v1, |first[0].clients|) && Covers(v2, |first[0].clients|)
    ensures Converged(second[|v2|])
    ensures forall id :: Held(first[0], id) <==> id in second[|v2|].server.reviews
    ensures forall i :: 0 <= i < |second[|v2|].clients| ==> !HasConflict(second[|v2|].clients[i], second[|v2|].server)
  {
    var w0, w1, w2 := first[0], second[0], second[|v2|];
    TraceKeeps(first, v1);
    TraceKeeps(second, v2);
    forall id | Held(w1, id)
      ensures id in w1.server.reviews
    {
      if id !in w0.server.reviews {
        var i: nat :| i < |w0.clients| && id in w0.clients[i].revlog;
        VisitUploads(first, v1, i);
      }
    }
    forall i: nat | i < |w2.clients|
      ensures w2.clients[i].revlog.Keys == w2.server.reviews.Keys == w1.server.reviews.Keys
      ensures !HasConflict(w2.clients[i], w2.server)
    {
      VisitDownloads(second, v2, i);
      CompatibleIsConflictFree(w2, i);
    }
    forall id
      ensures Held(w0, id) <==> id in w2.server.reviews
    {
      assert Held(w0, id) <==> Held(w1, id);
      if |w2.clients| > 0 { assert w2.clients[0].revlog.Keys == w1.server.reviews.Keys; }
    }
  }

  /** A disagreement with a stored row never goes away: both rows are immutable. */
  lemma DisagreementIsForEver(ws: seq<World>, visits: seq<nat>, j: nat, id: int)
    requires Trace(ws, visits) && j < |ws[0].clients|
    requires id in ws[0].clients[j].revlog && id in ws[0].server.reviews
    requires !Agrees(ws[0].clients[j], id, ReviewDigestOf(ws[0].server.reviews[id].value))
    ensures !Converged(ws[|visits|])
  {
    RowsAreKept(ws, visits, j);
    var l, l' := ws[0].clients[j], ws[|visits|].clients[j];
    assert Identity(l', l'.revlog[id].cid) == Identity(l, l.revlog[id].cid);
  }

  ghost predicate DisagreesWithServer(w: World, i: nat, id: int) {
    && i < |w.clients| && id in w.clients[i].revlog && id in w.server.reviews
    && !Agrees(w.clients[i], id, ReviewDigestOf(w.server.reviews[id].value))
  }

  ghost predicate DisagreesWithUpload(w: World, i: nat, j: nat, id: int) {
    && i < |w.clients| && j < |w.clients| && id in w.clients[i].revlog && id in w.clients[j].revlog
    && id !in w.server.reviews && !Agrees(w.clients[j], id, LocalDigest(w.clients[i], id))
  }

  lemma CompatibleOrWitness(w: World)
    ensures Compatible(w)
      || (exists i: nat, id :: DisagreesWithServer(w, i, id))
      || (exists i: nat, j: nat, id :: DisagreesWithUpload(w, i, j, id))
  {
    if (forall i: nat, id :: !DisagreesWithServer(w, i, id)) && (forall i: nat, j: nat, id :: !DisagreesWithUpload(w, i, j, id)) {
      forall i: nat, id | i < |w.clients| && id in w.clients[i].revlog && id in w.server.reviews
        ensures Agrees(w.clients[i], id, ReviewDigestOf(w.server.reviews[id].value))
      {
        assert !DisagreesWithServer(w, i, id);
      }
      forall i: nat, j: nat, id | i < |w.clients| && j < |w.clients|
                                  && id in w.clients[i].revlog && id in w.clients[j].revlog && id !in w.server.reviews
        ensures Agrees(w.clients[j], id, LocalDigest(w.clients[i], id))
      {
        assert !DisagreesWithUpload(w, i, j, id);
      }
    }
  }

  /**
   * The condition is exact.  Of any incompatible world some client exists such
   * that no trace in which it passes first ever converges, however long.
   */
  lemma IncompatibleNeverConverges(w: World) returns (first: nat)
    requires !Compatible(w)
    ensures forall ws: seq<World>, visits: seq<nat> ::
      Trace(ws, visits) && |visits| > 0 && ws[0] == w && visits[0] == first ==> !Converged(ws[|visits|])
  {
    var id, j: nat;
    CompatibleOrWitness(w);
    if i: nat, x :| DisagreesWithServer(w, i, x) {
      first, j, id := i, i, x;
    } else {
      var i: nat, k: nat, x :| DisagreesWithUpload(w, i, k, x);
      first, j, id := i, k, x;
      assert DisagreesWithUpload(w, first, j, id);
    }
    forall ws: seq<World>, visits: seq<nat> | Trace(ws, visits) && |visits| > 0 && ws[0] == w && visits[0] == first
      ensures !Converged(ws[|visits|])
    {
      IncompatibleTrace(ws, visits, j, id);
    }
  }

  lemma IncompatibleTrace(ws: seq<World>, visits: seq<nat>, j: nat, id: int)
    requires Trace(ws, visits) && |visits| > 0 && j < |ws[0].clients| && id in ws[0].clients[j].revlog
    requires visits[0] < |ws[0].clients|
    requires if id in ws[0].server.reviews then !Agrees(ws[0].clients[j], id, ReviewDigestOf(ws[0].server.reviews[id].value))
             else id in ws[0].clients[visits[0]].revlog && !Agrees(ws[0].clients[j], id, LocalDigest(ws[0].clients[visits[0]], id))
    ensures !Converged(ws[|visits|])
  {
    if id in ws[0].server.reviews {
      DisagreementIsForEver(ws, visits, j, id);
    } else {
      var i := visits[0];
      var rest := ws[1..];
      assert Trace(rest, visits[1..]) && rest[|visits| - 1] == ws[|visits|];
      assert Pass(ws[0], i, ws[1]);
      RowsAreKept(ws[..2], visits[..1], j);
      if HasConflict(ws[0].clients[i], ws[0].server) {
        var x :| Conflicting(ws[0].clients[i], ws[0].server, x);
        DisagreementIsForEver(ws, visits, i, x);
      } else {
        var l, l' := ws[0].clients[j], ws[1].clients[j];
        assert Identity(l', l'.revlog[id].cid) == Identity(l, l.revlog[id].cid);
        DisagreementIsForEver(rest, visits[1..], j, id);
      }
    }
  }

  /** The usual way to be incompatible: one client deleted the card before anyone uploaded. */
  lemma OrphanBesideAttachedIsIncompatible(w: World, i: nat, j: nat, id: int)
    requires i < |w.clients| && j < |w.clients| && id in w.clients[i].revlog && id in w.clients[j].revlog
    requires id !in w.server.reviews && Orphan(w.clients[i], id) && !Orphan(w.clients[j], id)
    ensures !Compatible(w)
  {
    assert !Agrees(w.clients[j], id, LocalDigest(w.clients[i], id));
  }

  // ----------------------------------------------------------- the pass itself --

  const BATCH_SIZE := 3000

  datatype Result = Synced | ReviewSyncConflict(ids: seq<int>)

  /** Logical identity to card id, and the card ids so indexed. */
  method ReviewCardMap(col: Collection) returns (byIdentity: map<CardKey, int>, occupied: set<int>)
    ensures IsCardMap(col.State(), byIdentity, occupied)
  {
    byIdentity := map[];
    var rest := col.cards.Keys;
    while rest != {}
      invariant rest <= col.cards.Keys
      invariant forall key :: key in byIdentity ==> HasNote(col.State(), byIdentity[key]) && Identity(col.State(), byIdentity[key]) == key
      invariant forall c :: HasNote(col.State(), c) && c !in rest ==> Identity(col.State(), c) in byIdentity
      decreases rest
    {
      var c := Pick(rest);
      rest := rest - {c};
      if col.cards[c].nid in col.notes {
        byIdentity := byIdentity[CardKey(col.notes[col.cards[c].nid].guid, col.cards[c].ord) := c];
      }
    }
    occupied := byIdentity.Values;
  }

  /** INSERT OR IGNORE of one pulled row. */
  method ApplyReview(col: Collection, id: int, r: Review, byIdentity: map<CardKey, int>, occupied: set<int>, usn: int)
    returns (applied: bool)
    requires Sound(col.State()) && IsCardMap(col.State(), byIdentity, occupied)
    modifies col`revlog
    ensures applied <==> id > 0
    ensures id <= 0 || id in old(col.revlog) ==> col.revlog == old(col.revlog)
    ensures id > 0 && id !in old(col.revlog) ==>
      && col.revlog.Keys == old(col.revlog.Keys) + {id}
      && col.revlog == old(col.revlog)[id := RevlogRow(col.revlog[id].cid, usn, r.body)]
      && Attachment(old(col.State()), id, r, col.revlog[id].cid)
  {
    if id <= 0 {
      return false;
    }
    var key := CardKey(r.guid, r.ord);
    var cid := if r.guid != "" && key in byIdentity then byIdentity[key] else 0;
    if cid == 0 {
      if r.sourceCardId != 0 && r.sourceCardId !in occupied {
        cid := r.sourceCardId;
      } else {
        var basis := if r.sourceCardId != 0 then r.sourceCardId else id;
        cid := -Abs(basis);
      }
    }
    if id !in col.revlog {
      col.revlog := col.revlog[id := RevlogRow(cid, usn, r.body)];
    }
    applied := true;
  }

  /** UPDATE revlog SET usn=0 WHERE usn=-1 AND id IN (...). */
  method ClearReviewUsns(col: Collection, ids: seq<int>)
    modifies col`revlog
    ensures col.revlog == map id | id in old(col.revlog) ::
      if id in ids && old(col.revlog)[id].usn == -1 then old(col.revlog)[id].(usn := 0) else old(col.revlog)[id]
  {
    col.revlog := map id | id in col.revlog ::
      if id in ids && col.revlog[id].usn == -1 then col.revlog[id].(usn := 0) else col.revlog[id];
  }

  method Sorted(s: set<int>) returns (q: seq<int>)
    ensures forall x :: x in q <==> x in s
    ensures forall i, j :: 0 <= i < j < |q| ==> q[i] < q[j]
  {
    q := [];
    var rest := s;
    while rest != {}
      invariant rest <= s
      invariant forall x :: x in q <==> x in s && x !in rest
      invariant forall i, j :: 0 <= i < j < |q| ==> q[i] < q[j]
      invariant forall x, y :: x in q && y in rest ==> x < y
      decreases rest
    {
      var m := Least(rest);
      forall i | 0 <= i < |q|
        ensures q[i] < m
      {
        assert q[i] in q;
      }
      q := q + [m];
      rest := rest - {m};
    }
  }

  method Least(s: set<int>) returns (m: int)
    requires s != {}
    ensures m in s && forall x :: x in s ==> m <= x
  {
    m := Pick(s);
    var rest := s - {m};
    while rest != {}
      invariant rest <= s && m in s
      invariant forall x :: x in s && x !in rest ==> m <= x
      decreases rest
    {
      var x := Pick(rest);
      rest := rest - {x};
      if x < m { m := x; }
    }
  }

  ghost predicate DistinctReviews(rs: seq<ReviewPut>) {
    forall i, j :: 0 <= i < j < |rs| ==> rs[i].reviewId != rs[j].reviewId
  }

  /** First writer wins: rows the server has stay, the others are stored. */
  lemma {:induction false} PushedReviews(db: Db, rs: seq<ReviewPut>, now: int)
    requires DistinctReviews(rs)
    ensures var db' := Run(db, ReviewEvents(rs, now));
      && db' == db.(reviews := db'.reviews)
      && (forall id :: id in db'.reviews <==> id in db.reviews || exists r <- rs :: r.reviewId == id)
      && (forall id :: id in db.reviews ==> db'.reviews[id] == db.reviews[id])
      && (forall r <- rs :: r.reviewId in db'.reviews && (r.reviewId !in db.reviews ==> db'.reviews[r.reviewId].value == r.review))
  {
    hide Apply;
    if |rs| > 0 {
      var n := |rs| - 1;
      var h := ReviewEvents(rs, now);
      assert h[..n] == ReviewEvents(rs[..n], now);
      PushedReviews(db, rs[..n], now);
      ApplyReview'(db, rs, n, now);
      assert forall r <- rs :: r in rs[..n] || r == rs[n];
    }
  }

  lemma ApplyReview'(db: Db, rs: seq<ReviewPut>, n: nat, now: int)
    requires n < |rs|
    ensures ReviewEvents(rs, now)[n] == Event(now, ReviewAtom(rs[n]))
    ensures var before := Run(db, ReviewEvents(rs[..n], now));
      Apply(before, Event(now, ReviewAtom(rs[n]))) ==
      if rs[n].reviewId in before.reviews then before
      else before.(reviews := before.reviews[rs[n].reviewId := Stamped(rs[n].review, now)])
  {
    hide Run;
    ServerSpec.ApplyReview(Run(db, ReviewEvents(rs[..n], now)), rs[n], now);
  }

  predicate Clashes(db: Db, r: ReviewPut) {
    r.reviewId in db.reviews && ReviewDigestOf(db.reviews[r.reviewId].value) != ReviewDigestOf(r.review)
  }

  ghost predicate SomeClash(db: Db, rs: seq<ReviewPut>) {
    exists r <- rs :: Clashes(db, r)
  }

  /** The collisions reported are exactly the rows that clash. */
  lemma {:induction false} CollisionsAreClashes(db: Db, rs: seq<ReviewPut>)
    requires forall r <- rs :: r.reviewId in db.reviews
    ensures forall r :: r in Collisions(db, rs) <==> r in rs && Clashes(db, r)
  {
    if |rs| > 0 {
      CollisionsAreClashes(db, rs[..|rs| - 1]);
      assert rs == rs[..|rs| - 1] + [rs[|rs| - 1]];
    }
  }

  function UploadOf(l: Local, id: int): ReviewPut
    requires id in l.revlog
  {
    var row := l.revlog[id];
    var key := Identity(l, row.cid);
    ReviewPut(id, Review(row.cid, key.guid, key.ord, HomeDeck(l, row.cid), row.body))
  }

  lemma AttachmentIgnoresRevlog(l: Local, l': Local, id: int, r: Review, cid: int)
    requires l' == l.(revlog := l'.revlog)
    ensures Attachment(l', id, r, cid) <==> Attachment(l, id, r, cid)
  {
    assert forall c :: Identity(l', c) == Identity(l, c);
    assert HasCard(l', CardKey(r.guid, r.ord)) <==> HasCard(l, CardKey(r.guid, r.ord));
  }

  function IdSet(ids: seq<int>): set<int> {
    set id | id in ids
  }

  /** What has been downloaded so far: only missing rows of the list, each well attached. */
  ghost predicate PartlyDownloaded(l: Local, db: Db, ids: set<int>, l': Local) {
    && l' == l.(revlog := l'.revlog)
    && l.revlog.Keys <= l'.revlog.Keys <= l.revlog.Keys + ids
    && (forall id :: id in l.revlog ==> l'.revlog[id] == l.revlog[id])
    && (forall id :: id in l'.revlog && id !in l.revlog ==>
        id in db.reviews && l'.revlog[id].body == db.reviews[id].value.body && Attachment(l, id, db.reviews[id].value, l'.revlog[id].cid))
  }

  /** What ReviewCardMap found, and still finds while only reviews change. */
  ghost predicate IsCardMap(l: Local, byIdentity: map<CardKey, int>, occupied: set<int>) {
    && (forall key :: key in byIdentity ==> HasNote(l, byIdentity[key]) && Identity(l, byIdentity[key]) == key)
    && (forall c :: HasNote(l, c) ==> Identity(l, c) in byIdentity)
    && occupied == byIdentity.Values
  }

  lemma CardMapStays(l: Local, ids: set<int>, db: Db, l': Local, byIdentity: map<CardKey, int>, occupied: set<int>)
    requires IsCardMap(l, byIdentity, occupied) && Sound(l) && PartlyDownloaded(l, db, ids, l')
    requires forall id :: id in ids ==> id > 0
    ensures IsCardMap(l', byIdentity, occupied) && Sound(l')
  {
    hide Attachment;
    assert forall c :: Identity(l', c) == Identity(l, c) && HasNote(l', c) == HasNote(l, c);
  }

  /** One more row, applied or ignored. */
  lemma OneMoreRow(l: Local, db: Db, ids: set<int>, before: Local, after: Local, id: int)
    requires PartlyDownloaded(l, db, ids, before) && id in ids && id in db.reviews
    requires after == before.(revlog := after.revlog)
    requires id in before.revlog ==> after.revlog == before.revlog
    requires id !in before.revlog ==>
      && after.revlog.Keys == before.revlog.Keys + {id}
      && after.revlog == before.revlog[id := after.revlog[id]] && after.revlog[id].body == db.reviews[id].value.body
      && Attachment(before, id, db.reviews[id].value, after.revlog[id].cid)
    ensures PartlyDownloaded(l, db, ids, after) && id in after.revlog && before.revlog.Keys <= after.revlog.Keys
  {
    if id !in before.revlog {
      AttachmentIgnoresRevlog(l, before, id, db.reviews[id].value, after.revlog[id].cid);
    }
    hide Attachment;
  }

  /** INSERT OR IGNORE of one row. */
  method DownloadOne(col: Collection, r: ReviewPut, byIdentity: map<CardKey, int>, occupied: set<int>, usn: int,
                     ghost l: Local, ghost db: Db, ghost ids: set<int>)
    requires Sound(l) && IsCardMap(l, byIdentity, occupied) && PartlyDownloaded(l, db, ids, col.State())
    requires r.reviewId in ids && r.reviewId in db.reviews && db.reviews[r.reviewId].value == r.review && forall id :: id in ids ==> id > 0
    modifies col`revlog
    ensures PartlyDownloaded(l, db, ids, col.State())
    ensures r.reviewId in col.revlog && old(col.revlog.Keys) <= col.revlog.Keys
  {
    ghost var before := col.State();
    CardMapStays(l, ids, db, before, byIdentity, occupied);
    hide PartlyDownloaded;
    hide Attachment;
    hide Sound;
    hide IsCardMap;
    var _ := ApplyReview(col, r.reviewId, r.review, byIdentity, occupied, usn);
    OneMoreRow(l, db, ids, before, col.State(), r.reviewId);
  }

  /** INSERT OR IGNORE of one batch. */
  method DownloadBatch(col: Collection, server: Handler, chunk: seq<int>, byIdentity: map<CardKey, int>, occupied: set<int>, usn: int,
                       ghost l: Local, ghost ids: set<int>)
    requires Sound(l) && IsCardMap(l, byIdentity, occupied)
    requires PartlyDownloaded(l, server.State(), ids, col.State())
    requires (forall id :: id in chunk ==> id in ids && id in server.reviews) && forall id :: id in ids ==> id > 0
    modifies col`revlog
    ensures PartlyDownloaded(l, server.State(), ids, col.State())
    ensures (forall id :: id in chunk ==> id in col.revlog) && old(col.revlog.Keys) <= col.revlog.Keys
  {
    ghost var db := server.State();
    assert db.reviews == server.reviews;
    hide *;
    var records := LoadBatch(server, chunk, ids);
    NoneYet(records, col.revlog.Keys);
    for k := 0 to |records|
      invariant PartlyDownloaded(l, db, ids, col.State()) && old(col.revlog.Keys) <= col.revlog.Keys
      invariant Stored(records, k, col.revlog.Keys)
    {
      ListedReview(db, chunk, ids, records, k);
      ghost var before := col.revlog.Keys;
      DownloadOne(col, records[k], byIdentity, occupied, usn, l, db, ids);
      OneMoreStored(records, k, before, col.revlog.Keys);
    }
    StoredMeans(records, col.revlog.Keys);
    AllListed(db, chunk, ids, records, col.revlog.Keys);
  }

  ghost predicate Stored(records: seq<ReviewPut>, k: nat, held: set<int>) {
    k <= |records| && forall j :: 0 <= j < k ==> records[j].reviewId in held
  }

  lemma NoneYet(records: seq<ReviewPut>, held: set<int>)
    ensures Stored(records, 0, held)
  {
  }

  lemma OneMoreStored(records: seq<ReviewPut>, k: nat, held: set<int>, held': set<int>)
    requires Stored(records, k, held) && k < |records| && held <= held' && records[k].reviewId in held'
    ensures Stored(records, k + 1, held')
  {
  }

  lemma StoredMeans(records: seq<ReviewPut>, held: set<int>)
    requires Stored(records, |records|, held)
    ensures forall j :: 0 <= j < |records| ==> records[j].reviewId in held
  {
  }

  /** The records of one batch: exactly the requested rows. */
  ghost predicate ListsReviews(db: Db, chunk: seq<int>, ids: set<int>, records: seq<ReviewPut>) {
    && (forall j :: 0 <= j < |records| ==>
        var r := records[j]; r.reviewId in ids && r.reviewId in db.reviews && db.reviews[r.reviewId].value == r.review)
    && (forall id :: id in chunk ==> exists j: nat :: j < |records| && records[j].reviewId == id)
  }

  lemma ListedReview(db: Db, chunk: seq<int>, ids: set<int>, records: seq<ReviewPut>, j: nat)
    requires ListsReviews(db, chunk, ids, records) && j < |records|
    ensures records[j].reviewId in ids && records[j].reviewId in db.reviews && db.reviews[records[j].reviewId].value == records[j].review
  {
  }

  lemma AllListed(db: Db, chunk: seq<int>, ids: set<int>, records: seq<ReviewPut>, stored: set<int>)
    requires ListsReviews(db, chunk, ids, records) && forall j :: 0 <= j < |records| ==> records[j].reviewId in stored
    ensures forall id :: id in chunk ==> id in stored
  {
  }

  method LoadBatch(server: Handler, chunk: seq<int>, ghost ids: set<int>) returns (records: seq<ReviewPut>)
    requires forall id :: id in chunk ==> id in ids && id in server.reviews
    ensures ListsReviews(server.State(), chunk, ids, records)
  {
    records := server.LoadReviews(chunk);
    LoadedAre(server.State(), chunk, ids, records);
  }

  lemma LoadedAre(db: Db, chunk: seq<int>, ids: set<int>, records: seq<ReviewPut>)
    requires forall id :: id in chunk ==> id in ids && id in db.reviews
    requires forall r <- records :: r.reviewId in chunk && r.reviewId in db.reviews && r.review == db.reviews[r.reviewId].value
    requires forall id <- chunk :: id in db.reviews ==> exists r <- records :: r.reviewId == id
    ensures ListsReviews(db, chunk, ids, records)
  {
    forall j | 0 <= j < |records|
      ensures records[j] in records
    {
    }
    forall id | id in chunk
      ensures exists j: nat :: j < |records| && records[j].reviewId == id
    {
      var r :| r in records && r.reviewId == id;
      var j: nat :| j < |records| && records[j] == r;
    }
  }

  lemma NothingDownloaded(l: Local, db: Db, ids: set<int>)
    ensures PartlyDownloaded(l, db, ids, l)
  {
  }

  lemma AllDownloaded(l: Local, db: Db, ids: seq<int>, l': Local)
    requires PartlyDownloaded(l, db, IdSet(ids), l') && forall j :: 0 <= j < |ids| ==> ids[j] in l'.revlog
    ensures l'.revlog.Keys == l.revlog.Keys + IdSet(ids)
  {
  }

  /** INSERT OR IGNORE of the listed rows, a batch at a time. */
  method DownloadHistory(col: Collection, server: Handler, ids: seq<int>, usn: int)
    requires Sound(col.State())
    requires forall id :: id in ids ==> id in server.reviews && id > 0
    modifies col`revlog
    ensures PartlyDownloaded(old(col.State()), server.State(), IdSet(ids), col.State())
    ensures col.revlog.Keys == old(col.revlog.Keys) + IdSet(ids)
  {
    ghost var l, db := col.State(), server.State();
    var byIdentity, occupied := ReviewCardMap(col);
    assert IsCardMap(l, byIdentity, occupied);
    hide PartlyDownloaded;
    hide IsCardMap;
    hide Sound;
    var start := 0;
    NothingDownloaded(l, db, IdSet(ids));
    while start < |ids|
      invariant 0 <= start <= |ids|
      invariant PartlyDownloaded(l, db, IdSet(ids), col.State())
      invariant forall j :: 0 <= j < start ==> ids[j] in col.revlog
    {
      var end := if start + BATCH_SIZE < |ids| then start + BATCH_SIZE else |ids|;
      var chunk := ids[start..end];
      forall id | id in chunk ensures id in ids { }
      DownloadBatch(col, server, chunk, byIdentity, occupied, usn, l, IdSet(ids));
      forall j | start <= j < end ensures ids[j] in col.revlog { assert chunk[j - start] == ids[j]; }
      start := end;
    }
    AllDownloaded(l, db, ids, col.State());
  }

  lemma ReviewOnlyBatch(rs: seq<ReviewPut>, now: int)
    requires !BadReviews(rs)
    ensures BatchEvents(Batch([], [], rs, [], [], []), false, now) == ReviewEvents(rs, now)
    ensures !BatchRefused(Batch([], [], rs, [], [], []))
  {
  }

  /** One more chunk: the runs compose, and it collides exactly where it clashes with the original rows. */
  lemma ChunkCollides(db: Db, rs: seq<ReviewPut>, n: nat, end: nat, now: int)
    requires DistinctReviews(rs) && n <= end <= |rs|
    ensures var before := Run(db, ReviewEvents(rs[..n], now));
      && Run(before, ReviewEvents(rs[n..end], now)) == Run(db, ReviewEvents(rs[..end], now))
      && forall r :: r in Collisions(Run(before, ReviewEvents(rs[n..end], now)), rs[n..end]) <==> r in rs[n..end] && Clashes(db, r)
  {
    hide Run;
    hide Collisions;
    var before, chunk := Run(db, ReviewEvents(rs[..n], now)), rs[n..end];
    RunConcat(db, ReviewEvents(rs[..n], now), ReviewEvents(chunk, now));
    assert ReviewEvents(rs[..n], now) + ReviewEvents(chunk, now) == ReviewEvents(rs[..end], now);
    PushedReviews(db, rs[..n], now);
    assert forall i :: 0 <= i < |chunk| ==> chunk[i] == rs[n + i];
    PushedReviews(before, chunk, now);
    var after := Run(before, ReviewEvents(chunk, now));
    CollisionsAreClashes(after, chunk);
    forall r | r in chunk
      ensures Clashes(after, r) <==> Clashes(db, r)
    {
      var i :| 0 <= i < |chunk| && chunk[i] == r;
      assert forall q <- rs[..n] :: q.reviewId != rs[n + i].reviewId;
    }
  }

  /** Batches of rows; a row the server holds differently aborts the pass after its batch. */
  method UploadHistory(server: Handler, rs: seq<ReviewPut>, now: int) returns (sent: nat, clashes: seq<ReviewPut>)
    requires now != Clock.GO_ZERO_TIME && DistinctReviews(rs)
    requires forall r <- rs :: r.reviewId > 0
    modifies server
    ensures sent <= |rs| && server.State() == Run(old(server.State()), ReviewEvents(rs[..sent], now))
    ensures clashes == [] <==> !SomeClash(old(server.State()), rs)
    ensures clashes == [] ==> sent == |rs|
    ensures forall r <- clashes :: r in rs[..sent] && Clashes(old(server.State()), r)
  {
    ghost var db := server.State();
    NothingSent(db, rs, now);
    hide Run;
    hide Collisions;
    hide DistinctReviews;
    hide Clashes;
    hide SomeClash;
    sent, clashes := 0, [];
    while sent < |rs|
      invariant sent <= |rs| && clashes == []
      invariant server.State() == Run(db, ReviewEvents(rs[..sent], now))
      invariant !SomeClash(db, rs[..sent])
    {
      var end := if sent + BATCH_SIZE < |rs| then sent + BATCH_SIZE else |rs|;
      var chunk := rs[sent..end];
      ChunkCollides(db, rs, sent, end, now);
      ChunkIsPositive(rs, sent, end);
      var resp := PushReviews(server, chunk, now);
      ChunkVerdict(db, rs, sent, end, resp.reviews.conflicts);
      if resp.reviews.conflicts != [] || resp.reviews.accepted != |chunk| {
        return end, resp.reviews.conflicts;
      }
      sent := end;
    }
    assert rs[..sent] == rs;
  }

  lemma NothingSent(db: Db, rs: seq<ReviewPut>, now: int)
    ensures Run(db, ReviewEvents(rs[..0], now)) == db && !SomeClash(db, rs[..0])
  {
  }

  lemma ChunkIsPositive(rs: seq<ReviewPut>, start: nat, end: nat)
    requires start <= end <= |rs| && forall r <- rs :: r.reviewId > 0
    ensures !BadReviews(rs[start..end])
  {
  }

  /** What the reported collisions of one more chunk say of the whole list. */
  lemma ChunkVerdict(db: Db, rs: seq<ReviewPut>, sent: nat, end: nat, conflicts: seq<ReviewPut>)
    requires sent <= end <= |rs| && !SomeClash(db, rs[..sent])
    requires forall r :: r in conflicts <==> r in rs[sent..end] && Clashes(db, r)
    ensures if conflicts == [] then !SomeClash(db, rs[..end])
            else SomeClash(db, rs) && forall r <- conflicts :: r in rs[..end] && Clashes(db, r)
  {
    hide Clashes;
    assert rs[..end] == rs[..sent] + rs[sent..end];
    if conflicts != [] {
      assert conflicts[0] in conflicts && conflicts[0] in rs;
    } else {
      assert forall r :: r in rs[sent..end] ==> r !in conflicts;
    }
  }

  method PushReviews(server: Handler, chunk: seq<ReviewPut>, now: int) returns (resp: Response)
    requires now != Clock.GO_ZERO_TIME && !BadReviews(chunk)
    modifies server
    ensures resp.Ok?
    ensures server.State() == Run(old(server.State()), ReviewEvents(chunk, now))
    ensures resp.reviews.conflicts == Collisions(server.State(), chunk)
    ensures resp.reviews.accepted + |resp.reviews.conflicts| == |chunk|
  {
    ReviewOnlyBatch(chunk, now);
    assert PutEvents([], false, now) + CardEvents([], now) + ReviewEvents(chunk, now) == ReviewEvents(chunk, now);
    resp := server.BatchPush(Batch([], [], chunk, [], [], []), false, now);
  }

  /** The manifest lists some server reviews, each as it stands. */
  ghost predicate ReviewsListed(remote: map<int, ReviewEntry>, db: Db) {
    forall id :: id in remote ==> id in db.reviews && id > 0 && remote[id].digest == ReviewDigestOf(db.reviews[id].value)
  }

  /** The shared ids whose rows contradict each other; orphans never do. */
  method FindConflicts(local: Local, shown: set<int>, remote: map<int, ReviewEntry>, ghost db: Db)
    returns (shared: seq<int>, conflicts: seq<int>)
    requires shown <= local.revlog.Keys && ReviewsListed(remote, db)
    ensures forall id :: id in conflicts <==> VisibleConflict(local, db, shown, remote.Keys, id)
    ensures conflicts == [] <==> forall id :: !VisibleConflict(local, db, shown, remote.Keys, id)
  {
    shared := Sorted(shown * remote.Keys);
    conflicts := [];
    for i := 0 to |shared|
      invariant forall j :: 0 <= j < i ==> (shared[j] in conflicts <==> VisibleConflict(local, db, shown, remote.Keys, shared[j]))
      invariant forall id :: id in conflicts ==> VisibleConflict(local, db, shown, remote.Keys, id)
    {
      var id := shared[i];
      assert id in shared;
      if !Orphan(local, id) && remote[id].digest != LocalDigest(local, id) {
        conflicts := conflicts + [id];
      }
    }
    forall id | VisibleConflict(local, db, shown, remote.Keys, id)
      ensures id in conflicts
    {
      assert id in shared;
    }
    if conflicts != [] {
      assert conflicts[0] in conflicts;
      assert VisibleConflict(local, db, shown, remote.Keys, conflicts[0]);
    }
  }

  /** The upload half of a pass. */
  method PushHistory(server: Handler, local: Local, pushIds: seq<int>, now: int) returns (clashes: seq<int>, ghost stored: set<int>)
    requires Sound(local) && now != Clock.GO_ZERO_TIME
    requires forall id :: id in pushIds ==> id in local.revlog
    requires forall i, j :: 0 <= i < j < |pushIds| ==> pushIds[i] < pushIds[j]
    modifies server
    ensures UploadedIn(local, old(server.State()), stored, server.State()) && stored <= IdSet(pushIds)
    ensures clashes == [] <==> forall id :: id in pushIds ==> !Differs(local, old(server.State()), id)
    ensures clashes == [] ==> stored == IdSet(pushIds)
    ensures forall id <- clashes :: id in stored && Differs(local, old(server.State()), id)
  {
    ghost var db := server.State();
    var payload := Payload(local, pushIds);
    SoundIds(local, pushIds, payload);
    hide *;
    var sent, clashing := UploadHistory(server, payload, now);
    stored := SentIds(pushIds, sent);
    PrefixUploaded(local, db, pushIds, payload, sent, now);
    clashes := seq(|clashing|, i requires 0 <= i < |clashing| => clashing[i].reviewId);
    ClashesReported(local, db, pushIds, payload, sent, clashing, clashes);
  }

  function SentIds(ids: seq<int>, sent: nat): set<int>
    requires sent <= |ids|
  {
    IdSet(ids[..sent])
  }

  lemma SoundIds(l: Local, ids: seq<int>, rs: seq<ReviewPut>)
    requires Sound(l) && (forall id :: id in ids ==> id in l.revlog) && forall r :: r in rs ==> r.reviewId in ids
    ensures forall r <- rs :: r.reviewId > 0
  {
  }

  lemma PrefixUploaded(l: Local, db: Db, ids: seq<int>, rs: seq<ReviewPut>, sent: nat, now: int)
    requires |rs| == |ids| && DistinctReviews(rs) && sent <= |rs|
    requires forall i :: 0 <= i < |ids| ==> ids[i] in l.revlog && rs[i] == UploadOf(l, ids[i])
    ensures UploadedIn(l, db, SentIds(ids, sent), Run(db, ReviewEvents(rs[..sent], now)))
  {
    PushedReviews(db, rs[..sent], now);
    hide Run;
    UploadedSome(l, db, Run(db, ReviewEvents(rs[..sent], now)), ids[..sent], rs[..sent]);
  }

  /** What the upload loop found, in terms of review ids. */
  lemma ClashesReported(l: Local, db: Db, ids: seq<int>, rs: seq<ReviewPut>, sent: nat, clashing: seq<ReviewPut>, clashes: seq<int>)
    requires |rs| == |ids| && sent <= |rs|
    requires forall i :: 0 <= i < |ids| ==> ids[i] in l.revlog && rs[i] == UploadOf(l, ids[i])
    requires clashing == [] <==> !SomeClash(db, rs)
    requires clashing == [] ==> sent == |rs|
    requires forall r <- clashing :: r in rs[..sent] && Clashes(db, r)
    requires |clashes| == |clashing| && forall i :: 0 <= i < |clashes| ==> clashes[i] == clashing[i].reviewId
    ensures SentIds(ids, sent) <= IdSet(ids)
    ensures clashes == [] <==> forall id :: id in ids ==> !Differs(l, db, id)
    ensures clashes == [] ==> SentIds(ids, sent) == IdSet(ids)
    ensures forall id <- clashes :: id in SentIds(ids, sent) && Differs(l, db, id)
  {
    ClashesDiffer(l, db, ids, rs);
    hide Clashes;
    hide Differs;
    hide SomeClash;
    assert ids[..|ids|] == ids;
    forall id | id in clashes
      ensures id in SentIds(ids, sent) && Differs(l, db, id)
    {
      var i :| 0 <= i < |clashes| && clashes[i] == id;
      assert clashing[i] in clashing;
      var j :| 0 <= j < sent && rs[..sent][j] == clashing[i];
      assert rs[j] == UploadOf(l, ids[j]) && ids[..sent][j] == id;
    }
  }

  /** The server has this review, with other immutable fields than this collection would upload. */
  predicate Differs(l: Local, db: Db, id: int) {
    id in l.revlog && id in db.reviews && ReviewDigestOf(db.reviews[id].value) != LocalDigest(l, id)
  }

  lemma ClashesDiffer(l: Local, db: Db, ids: seq<int>, rs: seq<ReviewPut>)
    requires |rs| == |ids| && forall i :: 0 <= i < |ids| ==> ids[i] in l.revlog && rs[i] == UploadOf(l, ids[i])
    ensures forall i :: 0 <= i < |ids| ==> (Clashes(db, rs[i]) <==> Differs(l, db, ids[i]))
    ensures SomeClash(db, rs) <==> exists id <- ids :: Differs(l, db, id)
  {
    forall i | 0 <= i < |ids|
      ensures Clashes(db, rs[i]) <==> Differs(l, db, ids[i])
      ensures rs[i] in rs && ids[i] in ids
    {
    }
    hide Clashes;
    hide Differs;
    if SomeClash(db, rs) {
      var r :| r in rs && Clashes(db, r);
      var i :| 0 <= i < |rs| && rs[i] == r;
      assert ids[i] in ids && Differs(l, db, ids[i]);
    }
    if id :| id in ids && Differs(l, db, id) {
      var i :| 0 <= i < |ids| && ids[i] == id;
      assert rs[i] in rs && Clashes(db, rs[i]);
    }
  }

  /** Union of both revlogs: sync_reviews_once up to the daily counters. */
  method SyncHistory(col: Collection, server: Handler, remote: map<int, ReviewEntry>, names: Option<set<string>>,
                     clearPendingUsn: bool, now: int)
    returns (result: Result, ghost stored: set<int>)
    requires Sound(col.State()) && now != Clock.GO_ZERO_TIME && ReviewsListed(remote, server.State())
    modifies col`revlog, server
    ensures HistoryPassIn(old(col.State()), old(server.State()), names, remote.Keys, col.State(), server.State(), stored)
    ensures var l, db := old(col.State()), old(server.State());
      var shown := ShownReviews(l, names);
      && (result.ReviewSyncConflict? <==>
            exists id :: VisibleConflict(l, db, shown, remote.Keys, id) || HiddenClash(l, db, shown, remote.Keys, id))
      && (result.ReviewSyncConflict? ==>
            if exists id :: VisibleConflict(l, db, shown, remote.Keys, id)
            then forall id :: id in result.ids <==> VisibleConflict(l, db, shown, remote.Keys, id)
            else result.ids != [] && forall id <- result.ids :: HiddenClash(l, db, shown, remote.Keys, id))
    ensures result.Synced? ==> Merged(old(col.State()), names, remote.Keys, old(server.State()), col.State(), server.State())
  {
    ghost var db := server.State();
    var local := col.State();
    var shown := ShownReviews(local, names);
    ShownAreRows(local, names);
    hide *;
    var shared, conflicts := FindConflicts(local, shown, remote, db);
    stored := {};
    if conflicts != [] {
      ConflictEndsPass(local, db, names, remote.Keys, conflicts);
      return ReviewSyncConflict(conflicts), stored;
    }
    var pullIds := Sorted(remote.Keys - shown);
    AdvertisedIds(remote, server.State(), pullIds);
    DownloadHistory(col, server, pullIds, if clearPendingUsn then 0 else -1);
    ghost var pulled := col.State();
    var pushIds := Sorted(shown - remote.Keys);
    var clashes;
    clashes, stored := PushHistory(server, local, pushIds, now);
    if clashes == [] && clearPendingUsn {
      ClearReviewUsns(col, shared + pushIds);
    }
    DownloadDone(local, db, remote.Keys, shown, pullIds, pulled, col.State());
    HistoryDone(local, db, names, remote.Keys, pushIds, clashes, stored, col.State(), server.State());
    result := if clashes == [] then Synced else ReviewSyncConflict(clashes);
    if clashes == [] {
      PassMerges(local, db, names, remote.Keys, col.State(), server.State(), stored);
    }
  }

  lemma PassMerges(l: Local, db: Db, names: Option<set<string>>, viewed: set<int>, l': Local, db': Db, stored: set<int>)
    requires HistoryPassIn(l, db, names, viewed, l', db', stored)
    requires forall id :: !VisibleConflict(l, db, ShownReviews(l, names), viewed, id) && !HiddenClash(l, db, ShownReviews(l, names), viewed, id)
    ensures Merged(l, names, viewed, db, l', db')
  {
    forall id
      ensures id in ShownReviews(l, names) <==> Answered(l, names, id)
    {
    }
    assert DownloadedIn(l, db, viewed, l') && UploadedIn(l, db, stored, db') && stored == ShownReviews(l, names) - viewed;
    hide HistoryPassIn;
    hide ShownReviews;
    hide VisibleConflict;
    hide HiddenClash;
    hide Attachment;
  }

  lemma ShownAreRows(l: Local, names: Option<set<string>>)
    ensures ShownReviews(l, names) <= l.revlog.Keys
  {
  }

  lemma AdvertisedIds(remote: map<int, ReviewEntry>, db: Db, ids: seq<int>)
    requires ReviewsListed(remote, db) && forall id :: id in ids ==> id in remote
    ensures forall id :: id in ids ==> id in db.reviews && id > 0
  {
  }

  lemma ConflictEndsPass(l: Local, db: Db, names: Option<set<string>>, viewed: set<int>, conflicts: seq<int>)
    requires conflicts != [] && forall id :: id in conflicts <==> VisibleConflict(l, db, ShownReviews(l, names), viewed, id)
    ensures HistoryPassIn(l, db, names, viewed, l, db, {})
    ensures exists id :: VisibleConflict(l, db, ShownReviews(l, names), viewed, id)
  {
    assert conflicts[0] in conflicts;
    assert VisibleConflict(l, db, ShownReviews(l, names), viewed, conflicts[0]);
  }

  lemma ListedIds(ids: seq<int>, s: set<int>)
    requires forall id :: id in ids <==> id in s
    ensures IdSet(ids) == s
  {
    forall id ensures id in IdSet(ids) <==> id in s { }
  }

  /** Clearing pending marks changes no answer. */
  lemma DownloadDone(l: Local, db: Db, viewed: set<int>, shown: set<int>, ids: seq<int>, pulled: Local, l': Local)
    requires PartlyDownloaded(l, db, IdSet(ids), pulled) && pulled.revlog.Keys == l.revlog.Keys + IdSet(ids)
    requires shown <= l.revlog.Keys && (forall id :: id in ids <==> id in viewed - shown)
    requires l' == pulled.(revlog := l'.revlog) && l'.revlog.Keys == pulled.revlog.Keys
    requires forall id :: id in pulled.revlog ==> l'.revlog[id].cid == pulled.revlog[id].cid && l'.revlog[id].body == pulled.revlog[id].body
    ensures DownloadedIn(l, db, viewed, l')
  {
    hide Attachment;
    ListedIds(ids, viewed - shown);
    assert l.revlog.Keys + (viewed - shown) == l.revlog.Keys + viewed;
  }

  lemma HistoryDone(l: Local, db: Db, names: Option<set<string>>, viewed: set<int>, ids: seq<int>, clashes: seq<int>, stored: set<int>,
                    l': Local, db': Db)
    requires var shown := ShownReviews(l, names);
      && (forall id :: !VisibleConflict(l, db, shown, viewed, id)) && (forall id :: id in ids <==> id in shown - viewed)
    requires DownloadedIn(l, db, viewed, l') && UploadedIn(l, db, stored, db') && stored <= IdSet(ids)
    requires clashes == [] <==> forall id :: id in ids ==> !Differs(l, db, id)
    requires clashes == [] ==> stored == IdSet(ids)
    requires forall id <- clashes :: id in stored && Differs(l, db, id)
    ensures HistoryPassIn(l, db, names, viewed, l', db', stored)
    ensures clashes != [] <==> exists id :: HiddenClash(l, db, ShownReviews(l, names), viewed, id)
    ensures forall id <- clashes :: HiddenClash(l, db, ShownReviews(l, names), viewed, id)
  {
    hide ShownReviews;
    hide DownloadedIn;
    hide UploadedIn;
    hide HiddenClash;
    hide VisibleConflict;
    hide Differs;
    ClashIsDifference(l, db, names, viewed, ids);
    if clashes != [] { assert clashes[0] in clashes && HiddenClash(l, db, ShownReviews(l, names), viewed, clashes[0]); }
  }

  lemma ClashIsDifference(l: Local, db: Db, names: Option<set<string>>, viewed: set<int>, ids: seq<int>)
    requires forall id :: id in ids <==> id in ShownReviews(l, names) - viewed
    ensures forall id :: HiddenClash(l, db, ShownReviews(l, names), viewed, id) <==> id in ids && Differs(l, db, id)
    ensures ShownReviews(l, names) - viewed == IdSet(ids)
  {
    ListedIds(ids, ShownReviews(l, names) - viewed);
  }

  method Payload(l: Local, ids: seq<int>) returns (rs: seq<ReviewPut>)
    requires forall id :: id in ids ==> id in l.revlog
    requires forall i, j :: 0 <= i < j < |ids| ==> ids[i] < ids[j]
    ensures |rs| == |ids| && DistinctReviews(rs)
    ensures forall i :: 0 <= i < |ids| ==> ids[i] in l.revlog && rs[i] == UploadOf(l, ids[i])
    ensures forall r :: r in rs ==> r.reviewId in ids
  {
    rs := [];
    for i := 0 to |ids|
      invariant |rs| == i
      invariant forall j :: 0 <= j < i ==> ids[j] in l.revlog && rs[j] == UploadOf(l, ids[j])
    {
      assert ids[i] in ids;
      rs := rs + [UploadOf(l, ids[i])];
    }
  }

  lemma UploadedSome(l: Local, db: Db, db': Db, ids: seq<int>, rs: seq<ReviewPut>)
    requires |rs| == |ids| && forall i :: 0 <= i < |ids| ==> ids[i] in l.revlog && rs[i] == UploadOf(l, ids[i])
    requires db' == db.(reviews := db'.reviews)
    requires forall id :: id in db'.reviews <==> id in db.reviews || exists r <- rs :: r.reviewId == id
    requires forall id :: id in db.reviews ==> db'.reviews[id] == db.reviews[id]
    requires forall r <- rs :: r.reviewId in db'.reviews && (r.reviewId !in db.reviews ==> db'.reviews[r.reviewId].value == r.review)
    ensures UploadedIn(l, db, IdSet(ids), db')
  {
    forall id
      ensures id in db'.reviews <==> id in db.reviews || id in ids
      ensures id in ids ==> id in l.revlog
      ensures id in ids && id !in db.reviews ==> IsUpload(l, id, db'.reviews[id].value)
    {
      if id in ids {
        var i :| 0 <= i < |ids| && ids[i] == id;
        assert rs[i] in rs;
      }
      if exists r <- rs :: r.reviewId == id {
        var r :| r in rs && r.reviewId == id;
        var i :| 0 <= i < |rs| && rs[i] == r;
        assert ids[i] in ids;
      }
    }
  }
}
