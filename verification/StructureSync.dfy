// The two structural passes: decks by name, notetypes by id (deck_sync.py:
// sync_decks_once; notetype_sync.py: sync_notetypes_once; anki_apply.py).

module StructureSync {
  import opened Prelude
  import opened Clock
  import opened ServerSpec
  import opened Anki
  import opened Server

  /** A local deck or notetype as it would be uploaded. */
  datatype LocalStructure = LocalStructure(content: Content, mod: int)

  /** What Anki puts into a new deck, and completes a new notetype with. */
  datatype Defaults = Defaults(deck: map<string, string>, notetype: map<string, string>)

  datatype Env = Env(newestWins: bool, preferServer: bool, now: int, pushedAt: int, wallClock: nat, defaults: Defaults)

  datatype Plan = Skip | Push(base: Digest) | Pull | Conflict

  /** One deck or notetype on both sides. */
  datatype Pair = Pair(local: Option<LocalStructure>, server: Option<Record>)

  /** `scaffold`: the empty deck named Default every new collection has. */
  function PlanOf(local: Option<LocalStructure>, server: Option<Entry>, e: Env, scaffold: bool): Plan {
    if e.preferServer then
      (if server.None? || (local.Some? && DigestOf(local.value.content) == server.value.digest) then Skip else Pull)
    else if local.None? then (if server.None? then Skip else Pull)
    else if server.None? then (if scaffold then Skip else Push(NoDigest))
    else if DigestOf(local.value.content) == server.value.digest then Skip
    else
      var winner :=
        if e.newestWins
        then NewestSide(LocalStamps(local.value.mod), ServerStamps(server.value.modifiedAt, server.value.clientModifiedAt), Some(e.now))
        else None;
      match winner
      case Some(Server) => Pull
      case Some(Local) => Push(server.value.digest)
      case None => Conflict
  }

  function EntryOfPair(p: Pair): Option<Entry> {
    if p.server.Some? then Some(EntryOf(p.server.value)) else None
  }

  function PlanFor(p: Pair, e: Env, scaffold: bool): Plan {
    PlanOf(p.local, EntryOfPair(p), e, scaffold)
  }

  // ----------------------------------------------------------------- outcomes --

  function Bookkeeping(local: Option<LocalStructure>): string {
    if local.None? || local.value.content.NoteContent? then "" else local.value.content.bookkeeping
  }

  /** What a pulled definition is merged into: the local one, or what Anki starts a new one with. */
  function BaseOf(local: Option<LocalStructure>, c: Content, d: Defaults): map<string, string> {
    if local.Some? && !local.value.content.NoteContent? then local.value.content.shape
    else if c.DeckContent? then d.deck
    else d.notetype
  }

  /** dict.update: the server's keys overwrite, all others stay; a notetype also takes its name as a key. */
  function Merged(local: Option<LocalStructure>, c: Content, d: Defaults): Content {
    match c
    case DeckContent(shape, _) => DeckContent(BaseOf(local, c, d) + shape, Bookkeeping(local))
    case NotetypeContent(name, shape, _) =>
      NotetypeContent(name, BaseOf(local, c, d) + shape + map["name" := name], Bookkeeping(local))
    case NoteContent(_, _, _) => c
  }

  /** The server's definition leaves no key of `base` standing. */
  predicate Covers(c: Content, base: map<string, string>) {
    match c
    case DeckContent(shape, _) => base.Keys <= shape.Keys
    case NotetypeContent(name, shape, _) => base.Keys <= shape.Keys && "name" in shape && shape["name"] == name
    case NoteContent(_, _, _) => true
  }

  /** A pulled definition is the server's if and only if the server's covers what it was merged into. */
  lemma MergedMatchesIff(local: Option<LocalStructure>, c: Content, d: Defaults)
    ensures DigestOf(Merged(local, c, d)) == DigestOf(c) <==> Covers(c, BaseOf(local, c, d))
  {
    var base := BaseOf(local, c, d);
    if !c.NoteContent? {
      var merged := Merged(local, c, d).shape;
      if !(base.Keys <= c.shape.Keys) {
        var k :| k in base.Keys && k !in c.shape.Keys;
        assert k in merged && k !in c.shape;
      }
      if merged == c.shape {
        assert forall k :: k in base ==> k in merged;
      }
      if Covers(c, base) {
        assert merged == c.shape;
      }
    }
  }

  function Pulled(p: Pair, e: Env): LocalStructure
    requires p.server.Some?
  {
    var r := p.server.value;
    LocalStructure(Merged(p.local, r.content, e.defaults), SourceModifiedSeconds(ServerStamps(r.modifiedAt, r.clientModifiedAt), e.wallClock))
  }

  function PutOf(r: GuardedRef, l: LocalStructure, base: Digest): Put {
    Put(r, l.content, base, l.mod * SECOND)
  }

  function Published(l: LocalStructure, pushedAt: int): Record {
    Record(l.content, pushedAt, UtcWriteTime(pushedAt, l.mod * SECOND))
  }

  predicate Sees(v: Pair, p: Pair) {
    v.local in {None, p.local} && v.server in {None, p.server}
  }

  /** A structure pushed as new although the server holds another version out of sight. */
  predicate Refused(p: Pair, v: Pair, e: Env, scaffold: bool) {
    && PlanFor(v, e, scaffold).Push? && p.local.Some? && v.server.None? && p.server.Some?
    && DigestOf(p.local.value.content) != DigestOf(p.server.value.content)
  }

  /** One deck or notetype after a pass with no other writer that saw `v` of it. */
  function OutcomeIn(p: Pair, v: Pair, e: Env, scaffold: bool): Pair
    requires Sees(v, p)
  {
    if Refused(p, v, e, scaffold) then p
    else
      match PlanFor(v, e, scaffold)
      case Push(_) => p.(server := Some(Published(p.local.value, e.pushedAt)))
      case Pull => p.(local := Some(Pulled(p, e)))
      case Skip => p
      case Conflict => p
  }

  /** What every server row satisfies when a client plans at `now`. */
  predicate Good(p: Pair, now: int) {
    p.server.Some? ==>
      SECOND <= p.server.value.modifiedAt <= now && ClockBounded(p.server.value.modifiedAt, p.server.value.clientModifiedAt)
  }

  /** A pull that leaves keys behind which the server's definition does not have. */
  predicate LeavesKeys(p: Pair, e: Env, scaffold: bool) {
    PlanFor(p, e, scaffold) == Pull && p.server.Some? && !Covers(p.server.value.content, BaseOf(p.local, p.server.value.content, e.defaults))
  }

  /**
   * When one pass is enough.  What a pass decided without a conflict, the next one
   * skips if and only if it was no pull that left keys behind.  If it was, every
   * later pass at every clock reports a conflict, since the pull tied the times, and
   * a restore pulls again; and neither changes anything on either side.
   */
  lemma StructureSettlesIff(p: Pair, e: Env, later: Env, scaffold: bool)
    requires Good(p, e.now) && SECOND <= e.now <= later.now && later.defaults == e.defaults
    requires PlanFor(p, e, scaffold) != Conflict && (e.preferServer ==> p.server.Some?)
    ensures var p' := OutcomeIn(p, p, e, scaffold);
      && PlanFor(p', later, scaffold) == (if !LeavesKeys(p, e, scaffold) then Skip else if later.preferServer then Pull else Conflict)
      && OutcomeIn(p', p', later, scaffold) == p'
  {
    if PlanFor(p, e, scaffold) == Pull {
      var r, p' := p.server.value, OutcomeIn(p, p, e, scaffold);
      MergedMatchesIff(p.local, r.content, e.defaults);
      PullSettlesIffBounded(r.modifiedAt, r.clientModifiedAt, e.now, e.wallClock);
      MergedAgain(p.local, r.content, e.defaults, p'.local.value.mod);
    }
  }

  /** Two conflict-free passes settle a structure, unless the server lacks it and it stopped being scaffold. */
  lemma TwoPassesSettleStructure(p: Pair, e1: Env, e2: Env, e3: Env, scaffold1: bool, scaffold2: bool, scaffold3: bool)
    requires Good(p, e1.now) && SECOND <= e1.now <= e1.pushedAt <= e2.now <= e2.pushedAt <= e3.now
    requires !e1.preferServer && !e2.preferServer && !e3.preferServer && e1.defaults == e2.defaults == e3.defaults
    requires PlanFor(p, e1, scaffold1) != Conflict
    requires PlanFor(OutcomeIn(p, p, e1, scaffold1), e2, scaffold2) != Conflict
    ensures var p1 := OutcomeIn(p, p, e1, scaffold1);
      var p2 := OutcomeIn(p1, p1, e2, scaffold2);
      && (p2.server.Some? || p2.local.None? || scaffold3 ==> PlanFor(p2, e3, scaffold3) == Skip)
      && (p2.server.None? && p2.local.Some? ==> scaffold2)
  {
    var p1 := OutcomeIn(p, p, e1, scaffold1);
    StructureSettlesIff(p, e1, e2, scaffold1);
    if p.server.None? && PlanFor(p, e1, scaffold1).Push? {
      assert Good(p1, e2.now);
    }
    if p1.server.Some? {
      assert PlanFor(p1, e2, scaffold1) == PlanFor(p1, e2, scaffold2);
    }
  }

  /** Merging the same definition again changes nothing. */
  lemma MergedAgain(local: Option<LocalStructure>, c: Content, d: Defaults, mod: int)
    ensures Merged(Some(LocalStructure(Merged(local, c, d), mod)), c, d) == Merged(local, c, d)
  {
  }

  // ------------------------------------------------------------------ both sides --

  function LocalOf(l: Local, r: GuardedRef): Option<LocalStructure> {
    if r.DeckRef? && r.name in l.decks then Some(LocalStructure(l.decks[r.name].content, l.decks[r.name].mod))
    else if r.NotetypeRef? && r.notetypeId in l.notetypes
      then Some(LocalStructure(l.notetypes[r.notetypeId].content, l.notetypes[r.notetypeId].mod))
    else None
  }

  function Lookup(records: map<GuardedRef, Record>, r: GuardedRef): Option<Record> {
    if r in records then Some(records[r]) else None
  }

  function PairOf(l: Local, records: map<GuardedRef, Record>, r: GuardedRef): Pair {
    Pair(LocalOf(l, r), Lookup(records, r))
  }

  /** What a pass over these manifests sees. */
  function ViewOf(local: map<GuardedRef, LocalStructure>, records: map<GuardedRef, Record>, listed: set<GuardedRef>, r: GuardedRef): Pair {
    Pair(if r in local then Some(local[r]) else None, if r in listed then Lookup(records, r) else None)
  }

  /** The empty stock deck. */
  predicate Scaffold(l: Local, r: GuardedRef) {
    r == DeckRef("Default") && forall c <- l.cards.Keys ::
      l.cards[c].deck != "Default" && (l.cards[c].scheduling.odid != 0 ==> HomeDeck(l, c) != "Default")
  }

  /** The manifests of a pass describe parts of both sides, and no note. */
  ghost predicate Manifests(local: map<GuardedRef, LocalStructure>, remote: map<GuardedRef, Entry>, l: Local, records: map<GuardedRef, Record>) {
    && (forall r :: r in local ==> !r.NoteRef? && LocalOf(l, r) == Some(local[r]))
    && (forall r :: r in remote ==> !r.NoteRef? && r in records && remote[r] == EntryOf(records[r]))
  }

  /** The whole local row is the same, counters and bookkeeping included. */
  ghost predicate SameRowAt(l: Local, l': Local, r: GuardedRef) {
    && (r.DeckRef? ==> (r.name in l.decks <==> r.name in l'.decks) && (r.name in l.decks ==> l'.decks[r.name] == l.decks[r.name]))
    && (r.NotetypeRef? ==>
        && (r.notetypeId in l.notetypes <==> r.notetypeId in l'.notetypes)
        && (r.notetypeId in l.notetypes ==> l'.notetypes[r.notetypeId] == l.notetypes[r.notetypeId]))
  }

  /** A deck's daily counters stay when its definition changes; a new deck has none. */
  ghost predicate CountersAt(l: Local, l': Local, r: GuardedRef) {
    r.DeckRef? && r.name in l'.decks ==>
      var now := l'.decks[r.name];
      if r.name in l.decks then now == l.decks[r.name].(content := now.content, mod := now.mod, usn := now.usn)
      else now == DeckRow(now.content, now.mod, now.usn, None, None, None, None)
  }

  /** The resources already handled are at their outcome, the others as they were; only a pull changes a local row. */
  ghost predicate Progress(l: Local, records: map<GuardedRef, Record>, local: map<GuardedRef, LocalStructure>, listed: set<GuardedRef>,
                           e: Env, handled: set<GuardedRef>, l': Local, records': map<GuardedRef, Record>)
  {
    && l' == l.(decks := l'.decks, notetypes := l'.notetypes)
    && (forall r: GuardedRef {:trigger PairOf(l', records', r)} :: if r in handled
        then Sees(ViewOf(local, records, listed, r), PairOf(l, records, r))
             && PairOf(l', records', r) == OutcomeIn(PairOf(l, records, r), ViewOf(local, records, listed, r), e, Scaffold(l, r))
        else PairOf(l', records', r) == PairOf(l, records, r))
    && (forall r: GuardedRef :: CountersAt(l, l', r))
    && (forall r: GuardedRef :: r !in handled || PlanFor(ViewOf(local, records, listed, r), e, Scaffold(l, r)) != Pull ==> SameRowAt(l, l', r))
  }

  lemma NothingHandled(l: Local, records: map<GuardedRef, Record>, local: map<GuardedRef, LocalStructure>, listed: set<GuardedRef>, e: Env)
    ensures Progress(l, records, local, listed, e, {}, l, records)
  {
  }

  /** One resource reached its outcome; nothing else moved. */
  ghost predicate Handled(l: Local, records: map<GuardedRef, Record>, local: map<GuardedRef, LocalStructure>, listed: set<GuardedRef>, e: Env,
                          before: Local, rows: map<GuardedRef, Record>, r: GuardedRef, after: Local, rows': map<GuardedRef, Record>)
  {
    && after == before.(decks := after.decks, notetypes := after.notetypes)
    && (forall q: GuardedRef {:trigger PairOf(after, rows', q)} :: q != r ==> PairOf(after, rows', q) == PairOf(before, rows, q))
    && Sees(ViewOf(local, records, listed, r), PairOf(l, records, r))
    && PairOf(after, rows', r) == OutcomeIn(PairOf(l, records, r), ViewOf(local, records, listed, r), e, Scaffold(l, r))
    && (forall q: GuardedRef :: q != r ==> SameRowAt(before, after, q)) && CountersAt(before, after, r)
    && (PlanFor(ViewOf(local, records, listed, r), e, Scaffold(l, r)) != Pull ==> SameRowAt(before, after, r))
  }

  lemma HandleOne(l: Local, records: map<GuardedRef, Record>, local: map<GuardedRef, LocalStructure>, listed: set<GuardedRef>, e: Env,
                  handled: set<GuardedRef>, before: Local, rows: map<GuardedRef, Record>, r: GuardedRef, after: Local, rows': map<GuardedRef, Record>)
    requires Progress(l, records, local, listed, e, handled, before, rows) && r !in handled
    requires Handled(l, records, local, listed, e, before, rows, r, after, rows')
    ensures Progress(l, records, local, listed, e, handled + {r}, after, rows')
  {
    RowsHandled(l, records, local, listed, e, handled, before, rows, r, after, rows');
    hide SameRowAt;
    hide CountersAt;
    hide PlanFor;
    hide OutcomeIn;
    hide PairOf;
    hide ViewOf;
    hide Scaffold;
    forall q: GuardedRef
      ensures if q in handled + {r}
        then Sees(ViewOf(local, records, listed, q), PairOf(l, records, q))
             && PairOf(after, rows', q) == OutcomeIn(PairOf(l, records, q), ViewOf(local, records, listed, q), e, Scaffold(l, q))
        else PairOf(after, rows', q) == PairOf(l, records, q)
    {
      if q != r { assert PairOf(after, rows', q) == PairOf(before, rows, q); }
    }
  }

  lemma RowsHandled(l: Local, records: map<GuardedRef, Record>, local: map<GuardedRef, LocalStructure>, listed: set<GuardedRef>, e: Env,
                    handled: set<GuardedRef>, before: Local, rows: map<GuardedRef, Record>, r: GuardedRef, after: Local, rows': map<GuardedRef, Record>)
    requires Progress(l, records, local, listed, e, handled, before, rows) && r !in handled
    requires Handled(l, records, local, listed, e, before, rows, r, after, rows')
    ensures forall q: GuardedRef :: CountersAt(l, after, q)
    ensures forall q: GuardedRef :: q !in handled + {r} || PlanFor(ViewOf(local, records, listed, q), e, Scaffold(l, q)) != Pull ==> SameRowAt(l, after, q)
  {
    hide OutcomeIn;
    hide PairOf;
    hide ViewOf;
    hide Scaffold;
    hide PlanFor;
    assert SameRowAt(l, before, r);
    forall q: GuardedRef
      ensures CountersAt(l, after, q)
    {
      assert CountersAt(l, before, q);
      if q != r { assert SameRowAt(before, after, q); }
    }
    forall q: GuardedRef | q !in handled + {r} || PlanFor(ViewOf(local, records, listed, q), e, Scaffold(l, q)) != Pull
      ensures SameRowAt(l, after, q)
    {
      assert SameRowAt(l, before, q) && SameRowAt(before, after, q);
    }
  }

  /** apply_deck and apply_notetype: the definition is merged, daily counters stay. */
  method Store(col: Collection, r: GuardedRef, s: LocalStructure, fieldsOf: Content -> nat)
    requires !r.NoteRef?
    modifies col`decks, col`notetypes
    ensures LocalOf(col.State(), r) == Some(s) && CountersAt(old(col.State()), col.State(), r)
    ensures forall q: GuardedRef :: q != r ==> SameRowAt(old(col.State()), col.State(), q)
    ensures forall q: GuardedRef :: q != r ==> LocalOf(col.State(), q) == LocalOf(old(col.State()), q)
  {
    if r.DeckRef? {
      var row := if r.name in col.decks then col.decks[r.name] else DeckRow(s.content, s.mod, 0, None, None, None, None);
      col.decks := col.decks[r.name := row.(content := s.content, mod := s.mod, usn := 0)];
    } else {
      col.notetypes := col.notetypes[r.notetypeId := NotetypeRow(s.content, s.mod, fieldsOf(s.content))];
    }
  }

  datatype Result = Done(conflicts: set<GuardedRef>) | Raised

  ghost predicate InConflict(l: Local, records: map<GuardedRef, Record>, local: map<GuardedRef, LocalStructure>, listed: set<GuardedRef>,
                             e: Env, r: GuardedRef)
  {
    PlanFor(ViewOf(local, records, listed, r), e, Scaffold(l, r)) == Conflict
  }

  ghost predicate IsRefused(l: Local, records: map<GuardedRef, Record>, local: map<GuardedRef, LocalStructure>, listed: set<GuardedRef>,
                            e: Env, r: GuardedRef)
  {
    Refused(PairOf(l, records, r), ViewOf(local, records, listed, r), e, Scaffold(l, r))
  }

  ghost predicate OnlyRecords(was: Db, now: Db) {
    now == was.(records := now.records, tombstones := now.tombstones)
  }

  /** An upload of one resource, and what the server makes of it. */
  method PushOne(server: Handler, r: GuardedRef, s: LocalStructure, base: Digest, now: int) returns (accepted: bool)
    modifies server
    ensures OnlyRecords(old(server.State()), server.State())
    ensures accepted <==> (r in old(server.records) ==> DigestOf(old(server.records)[r].content) in {base, DigestOf(s.content)})
    ensures server.records == if accepted then old(server.records)[r := Published(s, now)] else old(server.records)
    ensures !accepted ==> server.State() == old(server.State())
  {
    ghost var db := server.State();
    ApplyPut(db, PutOf(r, s, base), false, now);
    hide Apply;
    accepted := server.PutRecord(PutOf(r, s, base), false, now);
  }

  /** What the loop may rely on when it turns to resource `r`. */
  lemma Untouched(l: Local, records: map<GuardedRef, Record>, local: map<GuardedRef, LocalStructure>, remote: map<GuardedRef, Entry>,
                  e: Env, handled: set<GuardedRef>, l': Local, records': map<GuardedRef, Record>, r: GuardedRef)
    requires Manifests(local, remote, l, records) && Progress(l, records, local, remote.Keys, e, handled, l', records') && r !in handled
    ensures PairOf(l', records', r) == PairOf(l, records, r) && Scaffold(l', r) == Scaffold(l, r)
    ensures Sees(ViewOf(local, records, remote.Keys, r), PairOf(l, records, r))
    ensures ViewOf(local, records, remote.Keys, r).local == if r in local then Some(local[r]) else None
    ensures EntryOfPair(ViewOf(local, records, remote.Keys, r)) == if r in remote then Some(remote[r]) else None
    ensures r in local.Keys + remote.Keys ==> !r.NoteRef?
  {
    assert forall c :: HomeDeck(l', c) == HomeDeck(l, c);
    hide HomeDeck;
  }

  /** What carrying out the plan for `r` amounts to, case by case. */
  ghost predicate Decision(l: Local, records: map<GuardedRef, Record>, local: map<GuardedRef, LocalStructure>, listed: set<GuardedRef>,
                           e: Env, r: GuardedRef, was: Local, rows: map<GuardedRef, Record>, plan: Plan)
  {
    && (InConflict(l, records, local, listed, e, r) <==> plan == Conflict)
    && (plan == Pull ==> r in rows) && (plan.Push? ==> r in local)
    && (IsRefused(l, records, local, listed, e, r) <==>
          plan.Push? && r in rows && DigestOf(rows[r].content) !in {plan.base, DigestOf(local[r].content)})
    && (plan in {Skip, Conflict} ==> Handled(l, records, local, listed, e, was, rows, r, was, rows))
    && (plan == Pull ==> forall after :: Moved(was, after, r, Pulled(Pair(LocalOf(was, r), Some(rows[r])), e)) ==>
          Handled(l, records, local, listed, e, was, rows, r, after, rows))
    && (plan.Push? && !IsRefused(l, records, local, listed, e, r) ==>
          Handled(l, records, local, listed, e, was, rows, r, was, rows[r := Published(local[r], e.pushedAt)]))
  }

  /** The collection holds the structure now; nothing else moved. */
  ghost predicate Moved(was: Local, after: Local, r: GuardedRef, s: LocalStructure) {
    && after == was.(decks := after.decks, notetypes := after.notetypes)
    && LocalOf(after, r) == Some(s) && (forall q: GuardedRef :: q != r ==> LocalOf(after, q) == LocalOf(was, q))
    && (forall q: GuardedRef :: q != r ==> SameRowAt(was, after, q)) && CountersAt(was, after, r)
  }

  lemma Decides(l: Local, records: map<GuardedRef, Record>, local: map<GuardedRef, LocalStructure>, remote: map<GuardedRef, Entry>,
                e: Env, handled: set<GuardedRef>, was: Local, rows: map<GuardedRef, Record>, r: GuardedRef)
    requires Manifests(local, remote, l, records) && Progress(l, records, local, remote.Keys, e, handled, was, rows)
    requires r !in handled && r in local.Keys + remote.Keys
    ensures Decision(l, records, local, remote.Keys, e, r, was, rows,
                     PlanOf(if r in local then Some(local[r]) else None, if r in remote then Some(remote[r]) else None, e, Scaffold(was, r)))
  {
    Untouched(l, records, local, remote, e, handled, was, rows, r);
    var p, v := PairOf(l, records, r), ViewOf(local, records, remote.Keys, r);
    OutcomeCases(p, v, e, Scaffold(l, r));
    PushIsLocal(v, e, Scaffold(l, r));
    var plan := PlanFor(v, e, Scaffold(l, r));
    assert LocalOf(was, r) == p.local && Lookup(rows, r) == p.server;
    assert forall q: GuardedRef :: SameRowAt(was, was, q) && CountersAt(was, was, q);
    hide SameRowAt;
    hide CountersAt;
    hide Progress;
    hide Manifests;
    hide Scaffold;
    hide ViewOf;
    hide Refused;
    hide OutcomeIn;
    hide PlanFor;
    hide Pulled;
    hide Published;
    if plan == Pull {
      forall after | Moved(was, after, r, Pulled(Pair(LocalOf(was, r), Some(rows[r])), e))
        ensures Handled(l, records, local, remote.Keys, e, was, rows, r, after, rows)
      {
        LocalMoved(was, after, rows, r, Pulled(Pair(LocalOf(was, r), Some(rows[r])), e));
      }
    }
    if plan.Push? {
      RowMoved(was, rows, rows[r := Published(local[r], e.pushedAt)], r);
    }
  }

  /** Decide one resource and carry it out. */
  method SyncOne(col: Collection, server: Handler, local: map<GuardedRef, LocalStructure>, remote: map<GuardedRef, Entry>,
                 e: Env, fieldsOf: Content -> nat, r: GuardedRef,
                 ghost l: Local, ghost records: map<GuardedRef, Record>, ghost handled: set<GuardedRef>)
    returns (ok: bool, conflict: bool)
    requires Manifests(local, remote, l, records) && r in local.Keys + remote.Keys && r !in handled
    requires Progress(l, records, local, remote.Keys, e, handled, col.State(), server.records)
    modifies col`decks, col`notetypes, server
    ensures OnlyRecords(old(server.State()), server.State())
    ensures ok <==> !IsRefused(l, records, local, remote.Keys, e, r)
    ensures conflict <==> InConflict(l, records, local, remote.Keys, e, r)
    ensures !ok ==> col.State() == old(col.State()) && server.State() == old(server.State())
    ensures ok ==> Handled(l, records, local, remote.Keys, e, old(col.State()), old(server.records), r, col.State(), server.records)
  {
    hide Manifests;
    hide Progress;
    hide PlanOf;
    hide IsRefused;
    hide InConflict;
    hide Scaffold;
    hide Handled;
    hide LocalOf;
    hide SameRowAt;
    hide CountersAt;
    hide Pulled;
    hide Published;
    ghost var was, rows := col.State(), server.records;
    Decides(l, records, local, remote, e, handled, was, rows, r);
    Untouched(l, records, local, remote, e, handled, was, rows, r);
    var mine := if r in local then Some(local[r]) else None;
    var theirs := if r in remote then Some(remote[r]) else None;
    ok, conflict := true, false;
    match PlanOf(mine, theirs, e, Scaffold(col.State(), r))
    case Skip =>
    case Conflict => conflict := true;
    case Pull =>
      var current := LocalOf(col.State(), r);
      var s := Pulled(Pair(current, Some(server.records[r])), e);
      Store(col, r, s, fieldsOf);
      assert Moved(was, col.State(), r, s);
    case Push(base) =>
      ok := PushOne(server, r, mine.value, base, e.pushedAt);
  }

  lemma PushIsLocal(v: Pair, e: Env, scaffold: bool)
    ensures PlanFor(v, e, scaffold).Push? ==> v.local.Some?
  {
  }

  /** The outcome, plan by plan. */
  lemma OutcomeCases(p: Pair, v: Pair, e: Env, scaffold: bool)
    requires Sees(v, p)
    ensures var refused, outcome := Refused(p, v, e, scaffold), OutcomeIn(p, v, e, scaffold);
      match PlanFor(v, e, scaffold)
      case Skip => !refused && outcome == p
      case Conflict => !refused && outcome == p
      case Pull => !refused && p.server.Some? && outcome == p.(local := Some(Pulled(p, e)))
      case Push(base) =>
        && p.local.Some? && v.local == p.local
        && (refused <==> p.server.Some? && DigestOf(p.server.value.content) !in {base, DigestOf(p.local.value.content)})
        && outcome == if refused then p else p.(server := Some(Published(p.local.value, e.pushedAt)))
  {
  }

  lemma LocalMoved(was: Local, now: Local, rows: map<GuardedRef, Record>, r: GuardedRef, s: LocalStructure)
    requires LocalOf(now, r) == Some(s) && forall q: GuardedRef :: q != r ==> LocalOf(now, q) == LocalOf(was, q)
    ensures PairOf(now, rows, r) == Pair(Some(s), Lookup(rows, r))
    ensures forall q: GuardedRef {:trigger PairOf(now, rows, q)} :: q != r ==> PairOf(now, rows, q) == PairOf(was, rows, q)
  {
  }

  lemma RowMoved(l: Local, rows: map<GuardedRef, Record>, rows': map<GuardedRef, Record>, r: GuardedRef)
    requires rows' == rows || (r in rows' && rows' == rows[r := rows'[r]])
    ensures PairOf(l, rows', r) == Pair(LocalOf(l, r), Lookup(rows', r))
    ensures r in rows' ==> Lookup(rows', r) == Some(rows'[r])
    ensures Lookup(rows, r) == if r in rows then Some(rows[r]) else None
    ensures forall q: GuardedRef {:trigger PairOf(l, rows', q)} :: q != r ==> PairOf(l, rows', q) == PairOf(l, rows, q)
  {
  }

  // ------------------------------------------------- what a pass does, by states and times --

  /** Both times are known, and neither is more than five minutes ahead of the manifest. */
  predicate KnownTimes(mod: int, clientModifiedAt: int, now: int) {
    0 < mod && 0 < clientModifiedAt && 0 < now && mod * SECOND <= now + MAX_FUTURE_SKEW && clientModifiedAt <= now + MAX_FUTURE_SKEW
  }

  /** Content of the kind that belongs under this reference. */
  predicate Fitting(r: GuardedRef, c: Content) {
    (r.DeckRef? && c.DeckContent?) || (r.NotetypeRef? && c.NotetypeContent?)
  }

  /** Two decks with the same configuration, or two notetypes with the same name and definition. */
  predicate SameDefinition(a: Content, b: Content)
    requires !a.NoteContent? && !b.NoteContent?
  {
    a.shape == b.shape && a.DeckContent? == b.DeckContent? && (a.NotetypeContent? && b.NotetypeContent? ==> a.name == b.name)
  }

  /** The row holds this definition, received by the pass. */
  ghost predicate HoldsDefinition(row: Record, s: LocalStructure, e: Env) {
    && row.content == s.content && row.modifiedAt == e.pushedAt
    && (s.mod * SECOND <= e.pushedAt + MAX_FUTURE_CLOCK_SKEW && s.mod * SECOND != GO_ZERO_TIME ==> row.clientModifiedAt == s.mod * SECOND)
  }

  /** Every key of the row over those of `base`, the row's name, and the row's source time in whole seconds. */
  ghost predicate TookDefinition(s: LocalStructure, base: map<string, string>, bookkeeping: string, row: Record)
    requires !row.content.NoteContent?
  {
    && !s.content.NoteContent? && s.content.DeckContent? == row.content.DeckContent? && s.content.bookkeeping == bookkeeping
    && (row.content.NotetypeContent? ==>
        s.content.NotetypeContent? && s.content.name == row.content.name && "name" in s.content.shape && s.content.shape["name"] == row.content.name)
    && (forall k :: !(row.content.NotetypeContent? && k == "name") ==>
        && (k in s.content.shape <==> k in row.content.shape || k in base)
        && (k in row.content.shape ==> s.content.shape[k] == row.content.shape[k])
        && (k in base && k !in row.content.shape ==> s.content.shape[k] == base[k]))
    && (0 < row.clientModifiedAt <= row.modifiedAt + MAX_FUTURE_SKEW && 0 < row.modifiedAt ==> s.mod == row.clientModifiedAt / SECOND)
  }

  /**
   * A deck or notetype the pass sees on both sides.  Equal definitions stay.  A
   * restore takes the server's.  Under newest-wins the side that is a second or more
   * later gives the other its definition.  Without a winner nothing moves and the
   * resource is reported.
   */
  ghost predicate SharedDecided(e: Env, s: LocalStructure, row: Record, s': LocalStructure, row': Record, reported: bool)
    requires !s.content.NoteContent? && !row.content.NoteContent?
  {
    var same := SameDefinition(s.content, row.content);
    var known, ahead := KnownTimes(s.mod, row.clientModifiedAt, e.now), s.mod * SECOND - row.clientModifiedAt;
    && (same ==> s' == s && row' == row && !reported)
    && (!same && (e.preferServer || (e.newestWins && known && ahead <= -SECOND)) ==>
        row' == row && TookDefinition(s', s.content.shape, s.content.bookkeeping, row) && !reported)
    && (!same && !e.preferServer && e.newestWins && known && ahead >= SECOND ==> s' == s && HoldsDefinition(row', s, e) && !reported)
    && (!same && !e.preferServer && (!e.newestWins || (known && -SECOND < ahead < SECOND)) ==> s' == s && row' == row && reported)
  }

  /** The stock deck of a new collection, with no card in it. */
  ghost predicate EmptyDefault(l: Local, r: GuardedRef) {
    r == DeckRef("Default") && forall c :: c in l.cards ==>
      var odid := l.cards[c].scheduling.odid;
      l.cards[c].deck != "Default" && (odid != 0 && odid in l.deckNames ==> l.deckNames[odid] != "Default")
  }

  /** What becomes of one deck or notetype, whichever sides hold it. */
  ghost predicate StructureDecided(l: Local, records: map<GuardedRef, Record>, local: map<GuardedRef, LocalStructure>, listed: set<GuardedRef>,
                                   e: Env, r: GuardedRef, l': Local, records': map<GuardedRef, Record>, reported: bool)
  {
    var now, row' := LocalOf(l', r), Lookup(records', r);
    && (r in local && r in listed && r in records && Fitting(r, local[r].content) && Fitting(r, records[r].content) ==>
        now.Some? && row'.Some? && SharedDecided(e, local[r], records[r], now.value, row'.value, reported))
    && (r in local && r !in records ==>
        && now == Some(local[r]) && !reported
        && if e.preferServer || EmptyDefault(l, r) then row' == None else row'.Some? && HoldsDefinition(row'.value, local[r], e))
    && (r in listed && r in records && Fitting(r, records[r].content) && LocalOf(l, r) == None ==>
        && row' == Some(records[r]) && !reported && now.Some?
        && TookDefinition(now.value, if r.DeckRef? then e.defaults.deck else e.defaults.notetype, "", records[r]))
  }

  lemma SharedPairDecided(e: Env, s: LocalStructure, row: Record, p': Pair, scaffold: bool)
    requires (s.content.DeckContent? && row.content.DeckContent?) || (s.content.NotetypeContent? && row.content.NotetypeContent?)
    requires var p := Pair(Some(s), Some(row)); p' == OutcomeIn(p, p, e, scaffold)
    ensures p'.local.Some? && p'.server.Some?
    ensures SharedDecided(e, s, row, p'.local.value, p'.server.value, PlanFor(Pair(Some(s), Some(row)), e, scaffold) == Conflict)
  {
  }

  lemma StructureIsDecided(l: Local, records: map<GuardedRef, Record>, local: map<GuardedRef, LocalStructure>, remote: map<GuardedRef, Entry>,
                           e: Env, handled: set<GuardedRef>, r: GuardedRef, l': Local, records': map<GuardedRef, Record>)
    requires Manifests(local, remote, l, records) && Progress(l, records, local, remote.Keys, e, handled, l', records') && r in handled
    requires !IsRefused(l, records, local, remote.Keys, e, r)
    ensures StructureDecided(l, records, local, remote.Keys, e, r, l', records', InConflict(l, records, local, remote.Keys, e, r))
  {
    var p, v := PairOf(l, records, r), ViewOf(local, records, remote.Keys, r);
    assert PairOf(l', records', r) == OutcomeIn(p, v, e, Scaffold(l, r));
    assert r in local ==> LocalOf(l, r) == Some(local[r]);
    DefaultIsScaffold(l, r);
    hide Progress;
    hide Manifests;
    hide Scaffold;
    hide EmptyDefault;
    hide LocalOf;
    hide PlanFor;
    hide OutcomeIn;
    hide TookDefinition;
    hide HoldsDefinition;
    hide SharedDecided;
    if r in records && r in remote {
      if r in local && Fitting(r, local[r].content) && Fitting(r, records[r].content) {
        SharedPairDecided(e, local[r], records[r], PairOf(l', records', r), Scaffold(l, r));
      }
      if LocalOf(l, r) == None && Fitting(r, records[r].content) {
        CreatedDecided(r, e, records[r], PairOf(l', records', r), Scaffold(l, r));
      }
    } else if r in local && r !in records {
      OwnDecided(e, local[r], PairOf(l', records', r), Scaffold(l, r));
    }
  }

  lemma OwnDecided(e: Env, s: LocalStructure, p': Pair, scaffold: bool)
    requires var p := Pair(Some(s), None); p' == OutcomeIn(p, p, e, scaffold)
    ensures p'.local == Some(s) && PlanFor(Pair(Some(s), None), e, scaffold) != Conflict
    ensures if e.preferServer || scaffold then p'.server == None else p'.server.Some? && HoldsDefinition(p'.server.value, s, e)
  {
  }

  lemma CreatedDecided(r: GuardedRef, e: Env, row: Record, p': Pair, scaffold: bool)
    requires var p := Pair(None, Some(row)); Fitting(r, row.content) && p' == OutcomeIn(p, p, e, scaffold)
    ensures p'.server == Some(row) && p'.local.Some? && PlanFor(Pair(None, Some(row)), e, scaffold) != Conflict
    ensures TookDefinition(p'.local.value, if r.DeckRef? then e.defaults.deck else e.defaults.notetype, "", row)
  {
  }

  lemma DefaultIsScaffold(l: Local, r: GuardedRef)
    ensures Scaffold(l, r) <==> EmptyDefault(l, r)
  {
  }

  lemma AllDecided(l: Local, records: map<GuardedRef, Record>, local: map<GuardedRef, LocalStructure>, remote: map<GuardedRef, Entry>,
                   e: Env, conflicts: set<GuardedRef>, handled: set<GuardedRef>, l': Local, records': map<GuardedRef, Record>)
    requires Manifests(local, remote, l, records) && Progress(l, records, local, remote.Keys, e, handled, l', records')
    requires forall r :: r in conflicts <==> r in handled && InConflict(l, records, local, remote.Keys, e, r)
    requires forall r :: r in handled ==> !IsRefused(l, records, local, remote.Keys, e, r)
    ensures forall r: GuardedRef :: r in handled ==> StructureDecided(l, records, local, remote.Keys, e, r, l', records', r in conflicts)
  {
    hide *;
    forall r: GuardedRef | r in handled
      ensures StructureDecided(l, records, local, remote.Keys, e, r, l', records', r in conflicts)
    {
      StructureIsDecided(l, records, local, remote, e, handled, r, l', records');
    }
  }

  /**
   * One structural pass with no other writer takes every resource either manifest
   * names to its outcome and reports exactly those no clock decides, unless the
   * server refuses a new one; that ends the pass where it stands.
   */
  method SyncStructure(col: Collection, server: Handler, local: map<GuardedRef, LocalStructure>, remote: map<GuardedRef, Entry>,
                       e: Env, fieldsOf: Content -> nat)
    returns (result: Result, ghost handled: set<GuardedRef>)
    requires Manifests(local, remote, col.State(), server.records)
    modifies col`decks, col`notetypes, server
    ensures OnlyRecords(old(server.State()), server.State())
    ensures Progress(old(col.State()), old(server.records), local, remote.Keys, e, handled, col.State(), server.records)
    ensures handled <= local.Keys + remote.Keys
    ensures result.Raised? <==> exists r :: IsRefused(old(col.State()), old(server.records), local, remote.Keys, e, r)
    ensures result.Done? ==> handled == local.Keys + remote.Keys
    ensures result.Done? ==> forall r :: r in result.conflicts <==> InConflict(old(col.State()), old(server.records), local, remote.Keys, e, r)
    ensures result.Done? ==> forall r: GuardedRef :: r in handled ==>
      StructureDecided(old(col.State()), old(server.records), local, remote.Keys, e, r, col.State(), server.records, r in result.conflicts)
  {
    ghost var l, records, db := col.State(), server.records, server.State();
    var conflicts: set<GuardedRef> := {};
    handled := {};
    var rest := local.Keys + remote.Keys;
    NothingHandled(l, records, local, remote.Keys, e);
    hide *;
    while rest != {}
      invariant rest <= local.Keys + remote.Keys && handled == local.Keys + remote.Keys - rest
      invariant OnlyRecords(db, server.State())
      invariant Progress(l, records, local, remote.Keys, e, handled, col.State(), server.records)
      invariant forall r :: r in conflicts <==> r in handled && InConflict(l, records, local, remote.Keys, e, r)
      invariant forall r :: r in handled ==> !IsRefused(l, records, local, remote.Keys, e, r)
      decreases rest
    {
      var r := Pick(rest);
      ghost var before, rows := col.State(), server.records;
      var ok, conflict := SyncOne(col, server, local, remote, e, fieldsOf, r, l, records, handled);
      if !ok {
        return Raised, handled;
      }
      HandleOne(l, records, local, remote.Keys, e, handled, before, rows, r, col.State(), server.records);
      if conflict { conflicts := conflicts + {r}; }
      handled := handled + {r};
      rest := rest - {r};
    }
    AllDecided(l, records, local, remote, e, conflicts, handled, col.State(), server.records);
    OthersAreAbsent(l, records, local, remote.Keys, e);
    result := Done(conflicts);
  }

  /** A resource neither manifest names is none of the pass's business. */
  lemma OthersAreAbsent(l: Local, records: map<GuardedRef, Record>, local: map<GuardedRef, LocalStructure>, listed: set<GuardedRef>, e: Env)
    ensures forall r: GuardedRef :: r !in local.Keys + listed ==>
      !InConflict(l, records, local, listed, e, r) && !IsRefused(l, records, local, listed, e, r)
  {
  }

  // ------------------------------------------------------------------- two passes --

  /** deck_manifest over the selected decks. */
  function DeckManifest(l: Local, scope: set<string>): map<GuardedRef, LocalStructure> {
    map d | d in l.decks && InSelection(scope, d) :: DeckRef(d) := LocalStructure(l.decks[d].content, l.decks[d].mod)
  }

  /** notetype_manifest of the compared types. */
  function NotetypeManifest(l: Local, ids: set<int>): map<GuardedRef, LocalStructure> {
    map m | m in l.notetypes && m in ids :: NotetypeRef(m) := LocalStructure(l.notetypes[m].content, l.notetypes[m].mod)
  }

  method SyncDecksOnce(col: Collection, server: Handler, remote: map<GuardedRef, Entry>, scope: set<string>, e: Env)
    returns (result: Result, ghost local: map<GuardedRef, LocalStructure>, ghost handled: set<GuardedRef>)
    requires RecordsListed(Decks(remote), server.records)
    modifies col`decks, col`notetypes, server
    ensures local == DeckManifest(old(col.State()), scope)
    ensures forall d :: DeckRef(d) in local <==> d in old(col.decks) && (scope == {} || InScope(d, scope))
    ensures result.Done? ==> forall r: GuardedRef :: r in handled <==>
      r.DeckRef? && ((r.name in old(col.decks) && (scope == {} || InScope(r.name, scope))) || r in remote)
    ensures OnlyRecords(old(server.State()), server.State())
    ensures Progress(old(col.State()), old(server.records), local, Decks(remote).Keys, e, handled, col.State(), server.records)
    ensures handled <= local.Keys + Decks(remote).Keys && (result.Done? ==> handled == local.Keys + Decks(remote).Keys)
    ensures result.Raised? <==> exists r :: IsRefused(old(col.State()), old(server.records), local, Decks(remote).Keys, e, r)
    ensures result.Done? ==> forall r :: r in result.conflicts <==> InConflict(old(col.State()), old(server.records), local, Decks(remote).Keys, e, r)
    ensures result.Done? ==> forall r: GuardedRef :: r in handled ==>
      StructureDecided(old(col.State()), old(server.records), local, Decks(remote).Keys, e, r, col.State(), server.records, r in result.conflicts)
  {
    var mine := DeckManifest(col.State(), scope);
    local := mine;
    result, handled := SyncStructure(col, server, mine, Decks(remote), e, c => 0);
  }

  function Decks(remote: map<GuardedRef, Entry>): map<GuardedRef, Entry> {
    map r | r in remote && r.DeckRef? :: remote[r]
  }

  function Notetypes(remote: map<GuardedRef, Entry>, ids: set<int>): map<GuardedRef, Entry> {
    map r | r in remote && r.NotetypeRef? && r.notetypeId in ids :: remote[r]
  }

  method SyncNotetypesOnce(col: Collection, server: Handler, remote: map<GuardedRef, Entry>, ids: set<int>, e: Env, fieldsOf: Content -> nat)
    returns (result: Result, ghost local: map<GuardedRef, LocalStructure>, ghost handled: set<GuardedRef>)
    requires RecordsListed(Notetypes(remote, ids), server.records)
    modifies col`decks, col`notetypes, server
    ensures local == NotetypeManifest(old(col.State()), ids)
    ensures forall m :: NotetypeRef(m) in local <==> m in old(col.notetypes) && m in ids
    ensures result.Done? ==> forall r: GuardedRef :: r in handled <==>
      r.NotetypeRef? && r.notetypeId in ids && (r.notetypeId in old(col.notetypes) || r in remote)
    ensures OnlyRecords(old(server.State()), server.State())
    ensures Progress(old(col.State()), old(server.records), local, Notetypes(remote, ids).Keys, e, handled, col.State(), server.records)
    ensures handled <= local.Keys + Notetypes(remote, ids).Keys && (result.Done? ==> handled == local.Keys + Notetypes(remote, ids).Keys)
    ensures result.Raised? <==> exists r :: IsRefused(old(col.State()), old(server.records), local, Notetypes(remote, ids).Keys, e, r)
    ensures result.Done? ==>
      forall r :: r in result.conflicts <==> InConflict(old(col.State()), old(server.records), local, Notetypes(remote, ids).Keys, e, r)
    ensures result.Done? ==> forall r: GuardedRef :: r in handled ==>
      StructureDecided(old(col.State()), old(server.records), local, Notetypes(remote, ids).Keys, e, r, col.State(), server.records, r in result.conflicts)
  {
    var mine := NotetypeManifest(col.State(), ids);
    local := mine;
    result, handled := SyncStructure(col, server, mine, Notetypes(remote, ids), e, fieldsOf);
  }

  /** A pass moves nothing but what it handled, and a restore publishes nothing. */
  lemma OnlyHandledMoves(l: Local, records: map<GuardedRef, Record>, local: map<GuardedRef, LocalStructure>, listed: set<GuardedRef>, e: Env,
                         handled: set<GuardedRef>, l': Local, records': map<GuardedRef, Record>)
    requires Progress(l, records, local, listed, e, handled, l', records')
    ensures l' == l.(decks := l'.decks, notetypes := l'.notetypes)
    ensures forall r: GuardedRef :: r !in handled ==> SameRowAt(l, l', r)
    ensures forall r: GuardedRef :: r !in handled ==> Lookup(records', r) == Lookup(records, r)
    ensures e.preferServer ==> records' == records
  {
    forall r: GuardedRef | r !in handled || e.preferServer
      ensures Lookup(records', r) == Lookup(records, r)
    {
      assert Lookup(records', r) == PairOf(l', records', r).server;
    }
    if e.preferServer {
      forall r: GuardedRef
        ensures r in records' <==> r in records
        ensures r in records ==> records'[r] == records[r]
      {
        assert Lookup(records', r) == Lookup(records, r);
      }
    }
  }

  /**
   * A structural pass settles a resource it saw whole and did not report if and only
   * if it did not pull a definition that leaves keys behind; such a resource is a
   * conflict in every later pass.
   */
  lemma StructurePassSettlesIff(l: Local, records: map<GuardedRef, Record>, local: map<GuardedRef, LocalStructure>, listed: set<GuardedRef>,
                                e: Env, handled: set<GuardedRef>, l': Local, records': map<GuardedRef, Record>, later: Env, r: GuardedRef)
    requires Progress(l, records, local, listed, e, handled, l', records') && r in handled
    requires ViewOf(local, records, listed, r) == PairOf(l, records, r) && !InConflict(l, records, local, listed, e, r)
    requires Good(PairOf(l, records, r), e.now) && SECOND <= e.now <= later.now && later.defaults == e.defaults
    requires e.preferServer ==> r in records
    ensures PlanFor(PairOf(l', records', r), later, Scaffold(l', r))
         == (if !LeavesKeys(PairOf(l, records, r), e, Scaffold(l, r)) then Skip else if later.preferServer then Pull else Conflict)
  {
    StructureSettlesIff(PairOf(l, records, r), e, later, Scaffold(l, r));
    assert PairOf(l', records', r) == OutcomeIn(PairOf(l, records, r), PairOf(l, records, r), e, Scaffold(l, r));
    assert Scaffold(l', r) == Scaffold(l, r) by {
      assert forall c :: HomeDeck(l', c) == HomeDeck(l, c);
    }
  }

  /** The row the create-only request leaves for a new deck. */
  lemma ImmersionDeckRow(db: Db, q: Immersion, at: int)
    requires q.createDeck && DeckRef(q.deck) !in db.records
    ensures var records := Apply(db, Event(at, ImmersionAtom(q))).records;
      DeckRef(q.deck) in records && records[DeckRef(q.deck)] == Record(q.deckContent, at, UtcWriteTime(at, q.clientModifiedAt))
  {
    ApplyImmersion(db, q, at);
    ImmersionRecords(db, q, at);
    hide Apply;
    hide ImmersionWrites;
  }

  /**
   * A deck that the create-only request made with a partial configuration: a client
   * without the deck pulls it into one with Anki's defaults, and if those have any
   * other key, every later deck pass of that client reports the deck as a conflict.
   */
  lemma ImmersionDeckConflictsForEver(db: Db, q: Immersion, at: int, l: Local, scope: set<string>, listed: set<GuardedRef>, e: Env, later: Env,
                                      handled: set<GuardedRef>, l': Local, records': map<GuardedRef, Record>)
    requires q.createDeck && DeckRef(q.deck) !in db.records && q.deckContent.DeckContent?
    requires Progress(l, Apply(db, Event(at, ImmersionAtom(q))).records, DeckManifest(l, scope), listed, e, handled, l', records')
    requires DeckRef(q.deck) in handled * listed && q.deck !in l.decks && InSelection(scope, q.deck)
    requires !(e.defaults.deck.Keys <= q.deckContent.shape.Keys)
    requires SECOND <= at <= e.now <= later.now && !later.preferServer && later.defaults == e.defaults
    ensures InConflict(l', records', DeckManifest(l', scope), listed, later, DeckRef(q.deck))
  {
    ImmersionDeckRow(db, q, at);
    PartialDeckConflicts(l, Apply(db, Event(at, ImmersionAtom(q))).records, scope, listed, e, later, handled, l', records', q.deck);
  }

  /** The same of any server row whose definition lacks a default key. */
  lemma PartialDeckConflicts(l: Local, records: map<GuardedRef, Record>, scope: set<string>, listed: set<GuardedRef>, e: Env, later: Env,
                             handled: set<GuardedRef>, l': Local, records': map<GuardedRef, Record>, name: string)
    requires Progress(l, records, DeckManifest(l, scope), listed, e, handled, l', records')
    requires DeckRef(name) in handled * listed && name !in l.decks && InSelection(scope, name) && DeckRef(name) in records
    requires var c := records[DeckRef(name)].content; c.DeckContent? && !(e.defaults.deck.Keys <= c.shape.Keys)
    requires Good(Pair(None, Some(records[DeckRef(name)])), e.now) && SECOND <= e.now <= later.now
    requires !later.preferServer && later.defaults == e.defaults
    ensures InConflict(l', records', DeckManifest(l', scope), listed, later, DeckRef(name))
  {
    var r: GuardedRef := DeckRef(name);
    var p := PairOf(l, records, r);
    assert p == Pair(None, Some(records[r])) && ViewOf(DeckManifest(l, scope), records, listed, r) == p;
    StructurePassSettlesIff(l, records, DeckManifest(l, scope), listed, e, handled, l', records', later, r);
    assert PairOf(l', records', r) == OutcomeIn(p, p, e, Scaffold(l, r));
    assert name in l'.decks && DeckRef(name) in DeckManifest(l', scope);
    assert ViewOf(DeckManifest(l', scope), records', listed, r) == PairOf(l', records', r);
  }
}
