// Daily study counters: deck-local pairs of (collection day, amount), their
// portable epoch-day form, and the merge of all snapshots of a deck
// (review_sync.py: local_study_days, _merge_study_day, _apply_study_day).

module StudyDays {
  import opened Prelude
  import opened ServerSpec
  import opened ServerRuns
  import opened Anki
  import opened Server
  import ReviewSync
  import Clock

  // ------------------------------------------------------------ portable form --

  function Newer(day: Option<int>, pair: Option<DayCount>): Option<int> {
    if pair.None? then day
    else if day.None? || day.value < pair.value.day then Some(pair.value.day)
    else day
  }

  /** The newest collection day any counter of the deck belongs to. */
  function LocalDay(row: DeckRow): Option<int> {
    Newer(Newer(Newer(Newer(None, row.newToday), row.revToday), row.lrnToday), row.timeToday)
  }

  /** A counter left over from an earlier day reads as zero. */
  function AmountOn(pair: Option<DayCount>, day: int): int {
    if pair.Some? && pair.value.day == day then pair.value.amount else 0
  }

  function LocalRecord(name: string, row: DeckRow, crt: int): Option<StudyPut> {
    var day := LocalDay(row);
    if day.None? then None
    else
      Some(StudyPut(
        StudyKey(DayOf(crt) + day.value, name),
        Counters(AmountOn(row.newToday, day.value), AmountOn(row.revToday, day.value),
                 AmountOn(row.lrnToday, day.value), AmountOn(row.timeToday, day.value))))
  }

  predicate Meaningful(r: StudyPut) {
    r.counters != Counters(0, 0, 0, 0)
  }

  // ---------------------------------------------------------------- the order --

  predicate Below(a: Counters, b: Counters) {
    && a.newStudied <= b.newStudied && a.reviewStudied <= b.reviewStudied
    && a.learningStudied <= b.learningStudied && a.millis <= b.millis
  }

  /** Snapshots of one deck: by day, then counter by counter. */
  predicate Precedes(a: StudyPut, b: StudyPut) {
    && a.key.deck == b.key.deck
    && (a.key.day < b.key.day || (a.key.day == b.key.day && Below(a.counters, b.counters)))
  }

  /** The least snapshot that none of `s` exceeds. */
  ghost predicate IsSupremum(r: StudyPut, s: set<StudyPut>) {
    && s != {}
    && (forall x <- s :: Precedes(x, r))
    && (forall u: StudyPut :: (forall x <- s :: Precedes(x, u)) ==> Precedes(r, u))
  }

  lemma SupremumIsUnique(r1: StudyPut, r2: StudyPut, s: set<StudyPut>)
    requires IsSupremum(r1, s) && IsSupremum(r2, s)
    ensures r1 == r2
  {
    assert Precedes(r1, r2) && Precedes(r2, r1);
  }

  function MergeStudyDay(left: Option<StudyPut>, right: StudyPut): StudyPut {
    if left.None? then right
    else if left.value.key != right.key then (if left.value.key.day < right.key.day then right else left.value)
    else StudyPut(right.key, MaxCounters(left.value.counters, right.counters))
  }

  /** Merging computes suprema, so the order in which snapshots arrive is irrelevant. */
  lemma MergeJoinsSuprema(a: StudyPut, s: set<StudyPut>, b: StudyPut, t: set<StudyPut>)
    requires IsSupremum(a, s) && IsSupremum(b, t) && a.key.deck == b.key.deck
    ensures IsSupremum(MergeStudyDay(Some(a), b), s + t)
  {
    var m := MergeStudyDay(Some(a), b);
    assert Precedes(a, m) && Precedes(b, m);
    forall u: StudyPut | forall x <- s + t :: Precedes(x, u)
      ensures Precedes(m, u)
    {
      assert forall x <- s :: x in s + t;
      assert forall x <- t :: x in s + t;
      assert Precedes(a, u) && Precedes(b, u);
    }
  }

  // ------------------------------------------------------------ two-stage fold --

  function WithKey(records: seq<StudyPut>, key: StudyKey): set<StudyPut> {
    set r | r in records && r.key == key
  }

  function OfDeck(records: seq<StudyPut>, deck: string): set<StudyPut> {
    set r | r in records && r.key.deck == deck
  }

  /** One snapshot per (day, deck). */
  method Combine(records: seq<StudyPut>) returns (combined: map<StudyKey, StudyPut>)
    ensures forall key :: key in combined <==> key.deck != "" && WithKey(records, key) != {}
    ensures forall key :: key in combined ==> combined[key].key == key && IsSupremum(combined[key], WithKey(records, key))
  {
    combined := map[];
    for i := 0 to |records|
      invariant forall key :: key in combined <==> key.deck != "" && WithKey(records[..i], key) != {}
      invariant forall key :: key in combined ==>
        combined[key].key == key && IsSupremum(combined[key], WithKey(records[..i], key))
    {
      var r := records[i];
      ghost var was := combined;
      if r.key.deck != "" {
        var current := if r.key in combined then Some(combined[r.key]) else None;
        combined := combined[r.key := MergeStudyDay(current, r)];
      }
      forall key
        ensures WithKey(records[..i + 1], key) == WithKey(records[..i], key) + (if r.key == key then {r} else {})
      {
      }
      assert r in WithKey(records[..i + 1], r.key);
      assert IsSupremum(r, {r});
      if r.key in was { MergeJoinsSuprema(was[r.key], WithKey(records[..i], r.key), r, {r}); }
    }
    assert records[..|records|] == records;
  }

  ghost function Seen(records: seq<StudyPut>, keys: set<StudyKey>, deck: string): set<StudyPut> {
    set r | r in records && r.key.deck == deck && r.key in keys
  }

  /** `latest` is right for the snapshots whose key was visited. */
  ghost predicate LatestOf(latest: map<string, StudyPut>, records: seq<StudyPut>, keys: set<StudyKey>) {
    && (forall deck :: deck in latest <==> Seen(records, keys, deck) != {})
    && (forall deck :: deck in latest ==> IsSupremum(latest[deck], Seen(records, keys, deck)))
  }

  lemma VisitKey(latest: map<string, StudyPut>, records: seq<StudyPut>, keys: set<StudyKey>, r: StudyPut)
    requires LatestOf(latest, records, keys)
    requires WithKey(records, r.key) != {} && IsSupremum(r, WithKey(records, r.key))
    ensures var current := if r.key.deck in latest then Some(latest[r.key.deck]) else None;
      LatestOf(latest[r.key.deck := MergeStudyDay(current, r)], records, keys + {r.key})
  {
    var deck := r.key.deck;
    assert Seen(records, keys + {r.key}, deck) == Seen(records, keys, deck) + WithKey(records, r.key);
    if deck in latest {
      assert latest[deck].key.deck == deck by {
        var x :| x in Seen(records, keys, deck);
        assert Precedes(x, latest[deck]);
      }
      MergeJoinsSuprema(latest[deck], Seen(records, keys, deck), r, WithKey(records, r.key));
    }
    hide IsSupremum;
    hide MergeStudyDay;
    forall other | other != deck
      ensures Seen(records, keys + {r.key}, other) == Seen(records, keys, other)
    {
    }
  }

  /** Then the newest per deck. */
  method LatestByDeck(records: seq<StudyPut>) returns (latest: map<string, StudyPut>)
    ensures forall deck :: deck in latest <==> deck != "" && OfDeck(records, deck) != {}
    ensures forall deck :: deck in latest ==> IsSupremum(latest[deck], OfDeck(records, deck))
  {
    var combined := Combine(records);
    latest := map[];
    var rest := combined.Keys;
    hide IsSupremum;
    while rest != {}
      invariant rest <= combined.Keys
      invariant LatestOf(latest, records, combined.Keys - rest)
      decreases rest
    {
      var key := Pick(rest);
      var current := if key.deck in latest then Some(latest[key.deck]) else None;
      VisitKey(latest, records, combined.Keys - rest, combined[key]);
      hide LatestOf;
      latest := latest[key.deck := MergeStudyDay(current, combined[key])];
      assert combined.Keys - (rest - {key}) == (combined.Keys - rest) + {key};
      rest := rest - {key};
    }
    forall deck
      ensures Seen(records, combined.Keys, deck) == if deck == "" then {} else OfDeck(records, deck)
    {
      forall r | r in OfDeck(records, deck) && deck != "" ensures r.key in combined { assert r in WithKey(records, r.key); }
    }
    assert combined.Keys - rest == combined.Keys;
    assert forall deck :: deck in latest ==> IsSupremum(latest[deck], Seen(records, combined.Keys, deck));
  }

  // ------------------------------------------------------------------- writing --

  /** The deck after a snapshot was written into it. */
  function WithCounters(row: DeckRow, r: StudyPut, crt: int): DeckRow {
    var day := r.key.day - DayOf(crt);
    row.(newToday := Some(DayCount(day, r.counters.newStudied)),
         revToday := Some(DayCount(day, r.counters.reviewStudied)),
         lrnToday := Some(DayCount(day, r.counters.learningStudied)),
         timeToday := Some(DayCount(day, r.counters.millis)))
  }

  /** Pending decks are stamped for publication; the others keep their bookkeeping. */
  function Applied(row: DeckRow, r: StudyPut, crt: int, markPending: bool, wallClock: int): DeckRow {
    var row' := WithCounters(row, r, crt);
    if markPending && (row' != row || row.usn != -1) then row'.(mod := wallClock, usn := -1) else row'
  }

  /** Whatever the creation day of the collection, what was written reads back. */
  lemma WrittenReadsBack(row: DeckRow, r: StudyPut, crt: int, markPending: bool, wallClock: int)
    ensures LocalRecord(r.key.deck, Applied(row, r, crt, markPending, wallClock), crt) == Some(r)
  {
  }

  function Pair(row: DeckRow, field: nat): Option<DayCount> {
    match field
    case 0 => row.newToday
    case 1 => row.revToday
    case 2 => row.lrnToday
    case _ => row.timeToday
  }

  function SetPair(row: DeckRow, field: nat, pair: DayCount): DeckRow {
    match field
    case 0 => row.(newToday := Some(pair))
    case 1 => row.(revToday := Some(pair))
    case 2 => row.(lrnToday := Some(pair))
    case _ => row.(timeToday := Some(pair))
  }

  method ApplyStudyDay(col: Collection, r: StudyPut, markPending: bool, wallClock: int) returns (applied: bool, pending: bool)
    modifies col`decks
    ensures var name := r.key.deck;
      if name == "" || name !in old(col.decks) then !applied && !pending && col.decks == old(col.decks)
      else
        && col.decks == old(col.decks)[name := Applied(old(col.decks)[name], r, col.crt, markPending, wallClock)]
        && applied == (WithCounters(old(col.decks)[name], r, col.crt) != old(col.decks)[name])
        && pending == markPending
  {
    var name := r.key.deck;
    if name == "" || name !in col.decks {
      return false, false;
    }
    var deck := col.decks[name];
    var localDay := r.key.day - DayOf(col.crt);
    applied := false;
    for field := 0 to 4
      invariant forall j :: 0 <= j < field ==> Pair(deck, j) == Some(DayCount(localDay, Counter(r.counters, j)))
      invariant forall j :: field <= j < 4 ==> Pair(deck, j) == Pair(col.decks[name], j)
      invariant deck.(newToday := None, revToday := None, lrnToday := None, timeToday := None)
             == col.decks[name].(newToday := None, revToday := None, lrnToday := None, timeToday := None)
      invariant !applied ==> deck == col.decks[name]
      invariant applied ==> exists j :: 0 <= j < field && Pair(col.decks[name], j) != Some(DayCount(localDay, Counter(r.counters, j)))
    {
      var incoming := DayCount(localDay, Counter(r.counters, field));
      if Pair(deck, field) != Some(incoming) {
        deck := SetPair(deck, field, incoming);
        applied := true;
      }
    }
    assert Pair(deck, 0) == deck.newToday && Pair(deck, 1) == deck.revToday;
    assert Pair(deck, 2) == deck.lrnToday && Pair(deck, 3) == deck.timeToday;
    assert deck == WithCounters(col.decks[name], r, col.crt);
    if !applied && !(markPending && deck.usn != -1) {
      return false, markPending;
    }
    if markPending {
      deck := deck.(mod := wallClock, usn := -1);
    }
    col.decks := col.decks[name := deck];
    pending := markPending;
  }

  // ------------------------------------------------------------------ the pass --

  predicate Selected(name: string, names: Option<set<string>>) {
    name != "" && (names.None? || InScope(name, names.value))
  }

  ghost predicate IsLocalRecord(l: Local, names: Option<set<string>>, r: StudyPut) {
    && r.key.deck in l.decks && Selected(r.key.deck, names)
    && LocalRecord(r.key.deck, l.decks[r.key.deck], l.crt) == Some(r)
  }

  // What a deck's counters say, told by the four pairs alone.

  /** A counter of another day reads as zero. */
  predicate Reads(pair: Option<DayCount>, day: int, amount: int) {
    amount == if pair.Some? && pair.value.day == day then pair.value.amount else 0
  }

  /** The snapshot a deck shows: of the newest day any of its counters names, as an epoch day. */
  predicate Shows(row: DeckRow, crt: int, r: StudyPut) {
    var day := r.key.day - crt / 86400;
    && (forall pair <- [row.newToday, row.revToday, row.lrnToday, row.timeToday] :: pair.Some? ==> pair.value.day <= day)
    && (exists pair <- [row.newToday, row.revToday, row.lrnToday, row.timeToday] :: pair.Some? && pair.value.day == day)
    && Reads(row.newToday, day, r.counters.newStudied) && Reads(row.revToday, day, r.counters.reviewStudied)
    && Reads(row.lrnToday, day, r.counters.learningStudied) && Reads(row.timeToday, day, r.counters.millis)
  }

  predicate SomethingCounted(c: Counters) {
    c.newStudied != 0 || c.reviewStudied != 0 || c.learningStudied != 0 || c.millis != 0
  }

  /** The server's row of this key is at least the snapshot, counter by counter. */
  predicate Reached(days: map<StudyKey, Stamped<Counters>>, r: StudyPut) {
    && r.key in days
    && r.counters.newStudied <= days[r.key].value.newStudied && r.counters.reviewStudied <= days[r.key].value.reviewStudied
    && r.counters.learningStudied <= days[r.key].value.learningStudied && r.counters.millis <= days[r.key].value.millis
  }

  /** The snapshot of a deck of the collection that the routes select. */
  predicate IsOwn(l: Local, names: Option<set<string>>, r: StudyPut) {
    && r.key.deck in l.decks && r.key.deck != "" && (names.None? || InScope(r.key.deck, names.value))
    && Shows(l.decks[r.key.deck], l.crt, r)
  }

  lemma LocalRecordShows(row: DeckRow, crt: int, r: StudyPut)
    ensures LocalRecord(r.key.deck, row, crt) == Some(r) <==> Shows(row, crt, r)
  {
    var pairs := [row.newToday, row.revToday, row.lrnToday, row.timeToday];
    assert pairs[0] == row.newToday && pairs[1] == row.revToday && pairs[2] == row.lrnToday && pairs[3] == row.timeToday;
    assert forall pair <- pairs :: pair in {row.newToday, row.revToday, row.lrnToday, row.timeToday};
  }

  lemma OwnIsLocalRecord(l: Local, names: Option<set<string>>, r: StudyPut)
    ensures IsLocalRecord(l, names, r) <==> IsOwn(l, names, r)
  {
    if r.key.deck in l.decks { LocalRecordShows(l.decks[r.key.deck], l.crt, r); }
    hide LocalRecord;
    hide Shows;
  }

  method LocalStudyDays(col: Collection, names: Option<set<string>>) returns (out: seq<StudyPut>)
    ensures forall r :: r in out <==> IsLocalRecord(col.State(), names, r)
    ensures forall r :: r in out <==> IsOwn(col.State(), names, r)
    ensures DistinctDays(out)
  {
    out := [];
    var rest := col.decks.Keys;
    while rest != {}
      invariant rest <= col.decks.Keys
      invariant forall r :: r in out <==> IsLocalRecord(col.State(), names, r) && r.key.deck !in rest
      invariant DistinctDays(out)
      decreases rest
    {
      var name := Pick(rest);
      forall i | 0 <= i < |out| ensures out[i].key.deck !in rest { assert out[i] in out; }
      rest := rest - {name};
      var record := LocalRecord(name, col.decks[name], col.crt);
      if Selected(name, names) && record.Some? {
        out := out + [record.value];
      }
    }
    forall r ensures r in out <==> IsOwn(col.State(), names, r) { OwnIsLocalRecord(col.State(), names, r); }
  }

  /** All snapshots a pass sees of one deck: the server's and the collection's own. */
  ghost function Snapshots(remote: seq<StudyPut>, l: Local, names: Option<set<string>>, deck: string): set<StudyPut> {
    OfDeck(remote, deck) +
    (if deck in l.decks && Selected(deck, names) && LocalRecord(deck, l.decks[deck], l.crt).Some?
     then {LocalRecord(deck, l.decks[deck], l.crt).value} else {})
  }

  /** Every deck with a snapshot ends with the supremum of all its snapshots. */
  ghost predicate CountersPass(l: Local, remote: seq<StudyPut>, names: Option<set<string>>, l': Local) {
    && l' == l.(decks := l'.decks) && l'.decks.Keys == l.decks.Keys
    && forall deck :: deck in l.decks ==>
        if deck == "" || Snapshots(remote, l, names, deck) == {} then l'.decks[deck] == l.decks[deck]
        else
          var now := LocalRecord(deck, l'.decks[deck], l.crt);
          && now.Some? && IsSupremum(now.value, Snapshots(remote, l, names, deck))
          && l'.decks[deck] == WithCounters(l.decks[deck], now.value, l.crt).(mod := l'.decks[deck].mod, usn := l'.decks[deck].usn)
          && l'.decks[deck].content == l.decks[deck].content
  }

  /** No deck was marked as changed. */
  ghost predicate SameBookkeeping(was: map<string, DeckRow>, now: map<string, DeckRow>) {
    forall deck :: deck in was && deck in now ==> now[deck].mod == was[deck].mod && now[deck].usn == was[deck].usn
  }

  method SyncCounters(col: Collection, remote: seq<StudyPut>, localDays: seq<StudyPut>, names: Option<set<string>>,
                      markPending: bool, wallClock: int)
    requires forall r :: r in localDays <==> IsLocalRecord(col.State(), names, r)
    modifies col`decks
    ensures CountersPass(old(col.State()), remote, names, col.State())
    ensures !markPending ==> SameBookkeeping(old(col.decks), col.decks)
  {
    ghost var l := col.State();
    var all := remote + localDays;
    var latest := LatestByDeck(all);
    forall deck
      ensures OfDeck(all, deck) == Snapshots(remote, l, names, deck)
    {
    }
    var rest := latest.Keys;
    while rest != {}
      invariant rest <= latest.Keys
      invariant col.State() == l.(decks := col.decks) && col.decks.Keys == l.decks.Keys
      invariant forall deck :: deck in l.decks ==>
        if deck in latest && deck !in rest then col.decks[deck] == Applied(l.decks[deck], latest[deck], l.crt, markPending, wallClock)
        else col.decks[deck] == l.decks[deck]
      decreases rest
    {
      var deck := Pick(rest);
      rest := rest - {deck};
      assert latest[deck].key.deck == deck by { var x :| x in OfDeck(all, deck); assert Precedes(x, latest[deck]); }
      var _, _ := ApplyStudyDay(col, latest[deck], markPending, wallClock);
    }
    forall deck | deck in l.decks && deck in latest
      ensures LocalRecord(deck, col.decks[deck], l.crt) == Some(latest[deck])
    {
      var x :| x in OfDeck(all, deck);
      assert Precedes(x, latest[deck]);
      WrittenReadsBack(l.decks[deck], latest[deck], l.crt, markPending, wallClock);
    }
  }

  /**
   * No pass lowers the day of a selected deck or one of its counters of that day.
   * A deck outside the selection is left alone as long as the manifest is scoped;
   * an unscoped one would replace its counters by the server's.
   */
  lemma PassNeverLowers(l: Local, remote: seq<StudyPut>, names: Option<set<string>>, l': Local, deck: string)
    requires CountersPass(l, remote, names, l') && deck in l.decks && deck != ""
    requires LocalRecord(deck, l.decks[deck], l.crt).Some?
    ensures LocalRecord(deck, l'.decks[deck], l.crt).Some?
    ensures var was, now := LocalRecord(deck, l.decks[deck], l.crt).value, LocalRecord(deck, l'.decks[deck], l.crt).value;
      && (Selected(deck, names) || OfDeck(remote, deck) == {} ==> Precedes(was, now))
      && (!Selected(deck, names) && OfDeck(remote, deck) != {} ==> IsSupremum(now, OfDeck(remote, deck)))
  {
    var was := LocalRecord(deck, l.decks[deck], l.crt).value;
    if Snapshots(remote, l, names, deck) != {} && Selected(deck, names) {
      assert was in Snapshots(remote, l, names, deck);
    }
    if !Selected(deck, names) {
      assert Snapshots(remote, l, names, deck) == OfDeck(remote, deck);
    }
  }

  // ------------------------------------------------------------- both directions --

  const DAY_BATCH := 1000

  ghost predicate DistinctDays(ms: seq<StudyPut>) {
    forall i, j :: 0 <= i < j < |ms| ==> ms[i].key != ms[j].key
  }

  function PushedValue(db: Db, m: StudyPut): Counters {
    if m.key in db.studyDays then MaxCounters(db.studyDays[m.key].value, m.counters) else m.counters
  }

  /** The server's rows after one snapshot per key was pushed. */
  lemma {:induction false} PushedDays(db: Db, ms: seq<StudyPut>, now: int)
    requires DistinctDays(ms)
    ensures DaysStored(db, ms, Run(db, StudyEvents(ms, now)))
  {
    hide Apply;
    hide DaysStored;
    if |ms| == 0 {
      NothingStored(db, ms);
    } else {
      var n := |ms| - 1;
      var h := StudyEvents(ms, now);
      assert h[..n] == StudyEvents(ms[..n], now);
      PushedDays(db, ms[..n], now);
      ApplyStudy(Run(db, h[..n]), ms[n], now);
      OneMoreDay(db, ms, n, Run(db, h[..n]), Run(db, h));
      assert ms[..n + 1] == ms;
    }
  }

  lemma NothingStored(db: Db, ms: seq<StudyPut>)
    requires ms == []
    ensures DaysStored(db, ms, db)
  {
    assert forall key :: WithKey(ms, key) == {};
  }

  /** The study days after one snapshot per key was pushed. */
  ghost predicate DaysStored(db: Db, ms: seq<StudyPut>, db': Db) {
    && db' == db.(studyDays := db'.studyDays)
    && (forall key :: key in db'.studyDays <==> key in db.studyDays || WithKey(ms, key) != {})
    && (forall key :: key in db.studyDays && WithKey(ms, key) == {} ==> db'.studyDays[key] == db.studyDays[key])
    && (forall m <- ms :: m.key in db'.studyDays && db'.studyDays[m.key].value == PushedValue(db, m))
  }

  lemma OneMoreDay(db: Db, ms: seq<StudyPut>, n: nat, before: Db, after: Db)
    requires DistinctDays(ms) && n < |ms| && DaysStored(db, ms[..n], before)
    requires after == before.(studyDays := after.studyDays) && ms[n].key in after.studyDays
    requires after.studyDays == before.studyDays[ms[n].key := after.studyDays[ms[n].key]]
    requires after.studyDays[ms[n].key].value ==
      if ms[n].key in before.studyDays then MaxCounters(before.studyDays[ms[n].key].value, ms[n].counters) else ms[n].counters
    ensures DaysStored(db, ms[..n + 1], after)
  {
    DayKeys(ms, n);
    hide MaxCounters;
    hide WithKey;
    hide DistinctDays;
    forall m | m in ms[..n + 1]
      ensures m.key in after.studyDays && after.studyDays[m.key].value == PushedValue(db, m)
    {
      if m != ms[n] { assert m in ms[..n]; }
    }
  }

  /** The keys of a prefix, and of one more snapshot with a key of its own. */
  lemma DayKeys(ms: seq<StudyPut>, n: nat)
    requires DistinctDays(ms) && n < |ms|
    ensures forall key :: WithKey(ms[..n + 1], key) == WithKey(ms[..n], key) + (if ms[n].key == key then {ms[n]} else {})
    ensures WithKey(ms[..n], ms[n].key) == {}
    ensures forall m :: m in ms[..n + 1] <==> m in ms[..n] || m == ms[n]
    ensures forall m :: m in ms[..n] ==> m.key != ms[n].key
  {
    assert ms[..n + 1] == ms[..n] + [ms[n]];
  }

  lemma StudyOnlyBatch(ms: seq<StudyPut>, now: int)
    requires forall m <- ms :: m.key.deck != ""
    ensures !BatchRefused(Batch([], [], [], ms, [], []))
    ensures BatchEvents(Batch([], [], [], ms, [], []), false, now) == StudyEvents(ms, now)
  {
    assert StudyPrefix(ms) == |ms|;
    assert ms[..|ms|] == ms;
  }

  method SelectMeaningful(localDays: seq<StudyPut>) returns (meaningful: seq<StudyPut>)
    requires DistinctDays(localDays)
    ensures DistinctDays(meaningful) && forall m :: m in meaningful <==> m in localDays && Meaningful(m)
  {
    meaningful := [];
    for i := 0 to |localDays|
      invariant DistinctDays(meaningful)
      invariant forall m :: m in meaningful <==> m in localDays[..i] && Meaningful(m)
    {
      assert forall m <- localDays[..i] :: m.key != localDays[i].key;
      assert forall j :: 0 <= j < |meaningful| ==> meaningful[j] in localDays[..i];
      if Meaningful(localDays[i]) {
        meaningful := meaningful + [localDays[i]];
      }
    }
    assert localDays[..|localDays|] == localDays;
  }

  /** Every snapshot that counts something has a row at least as high; a new row is such a snapshot's, and old rows never fall. */
  ghost predicate Published(days: map<StudyKey, Stamped<Counters>>, list: seq<StudyPut>, days': map<StudyKey, Stamped<Counters>>) {
    && (forall m <- list :: SomethingCounted(m.counters) ==> Reached(days', m))
    && (forall key :: key in days' && key !in days ==> exists m <- list :: m.key == key && SomethingCounted(m.counters) && days'[key].value == m.counters)
    && (forall key :: key in days ==> Reached(days', StudyPut(key, days[key].value)))
  }

  lemma CountersPublished(db: Db, list: seq<StudyPut>, ms: seq<StudyPut>, now: int)
    requires DistinctDays(ms) && forall m :: m in ms <==> m in list && Meaningful(m)
    ensures Published(db.studyDays, list, Run(db, StudyEvents(ms, now)).studyDays)
  {
    PushedDays(db, ms, now);
    StoredIsPublished(db, list, ms, Run(db, StudyEvents(ms, now)));
  }

  lemma StoredIsPublished(db: Db, list: seq<StudyPut>, ms: seq<StudyPut>, db': Db)
    requires DaysStored(db, ms, db') && forall m :: m in ms <==> m in list && Meaningful(m)
    ensures Published(db.studyDays, list, db'.studyDays)
  {
    forall m ensures Meaningful(m) <==> SomethingCounted(m.counters) { }
    hide Meaningful;
    hide SomethingCounted;
    forall m | m in ms
      ensures Reached(db'.studyDays, m) && (m.key !in db.studyDays ==> db'.studyDays[m.key].value == m.counters)
      ensures m.key in db.studyDays ==> Reached(db'.studyDays, StudyPut(m.key, db.studyDays[m.key].value))
    {
    }
    hide MaxCounters;
    forall key | key in db'.studyDays && key !in db.studyDays
      ensures exists m <- list :: m.key == key && SomethingCounted(m.counters) && db'.studyDays[key].value == m.counters
    {
      var m := Member(WithKey(ms, key));
      assert m in list;
    }
    forall key | key in db.studyDays
      ensures Reached(db'.studyDays, StudyPut(key, db.studyDays[key].value))
    {
      if WithKey(ms, key) != {} { var m := Member(WithKey(ms, key)); }
    }
  }

  /** Upload of the non-zero snapshots, a thousand at a time. */
  method PushCounters(server: Handler, localDays: seq<StudyPut>, now: int) returns (meaningful: seq<StudyPut>)
    requires now != Clock.GO_ZERO_TIME && forall m <- localDays :: m.key.deck != ""
    requires DistinctDays(localDays)
    modifies server
    ensures DistinctDays(meaningful) && forall m :: m in meaningful <==> m in localDays && Meaningful(m)
    ensures server.State() == Run(old(server.State()), StudyEvents(meaningful, now))
    ensures Published(old(server.studyDays), localDays, server.studyDays)
  {
    meaningful := SelectMeaningful(localDays);
    ghost var db := server.State();
    var start := 0;
    assert Run(db, StudyEvents(meaningful[..0], now)) == db;
    hide Run;
    hide DistinctDays;
    while start < |meaningful|
      invariant start <= |meaningful|
      invariant server.State() == Run(db, StudyEvents(meaningful[..start], now))
    {
      var end := if start + DAY_BATCH < |meaningful| then start + DAY_BATCH else |meaningful|;
      var chunk := meaningful[start..end];
      forall m | m in chunk ensures m.key.deck != "" { assert m in meaningful; }
      PushChunk(server, chunk, now);
      ChunksCompose(db, meaningful, start, end, now);
      start := end;
    }
    assert meaningful[..|meaningful|] == meaningful;
    CountersPublished(db, localDays, meaningful, now);
    assert server.studyDays == server.State().studyDays;
  }

  lemma ChunksCompose(db: Db, ms: seq<StudyPut>, n: nat, end: nat, now: int)
    requires n <= end <= |ms|
    ensures Run(Run(db, StudyEvents(ms[..n], now)), StudyEvents(ms[n..end], now)) == Run(db, StudyEvents(ms[..end], now))
  {
    hide Run;
    RunConcat(db, StudyEvents(ms[..n], now), StudyEvents(ms[n..end], now));
    assert StudyEvents(ms[..n], now) + StudyEvents(ms[n..end], now) == StudyEvents(ms[..end], now);
  }

  method PushChunk(server: Handler, chunk: seq<StudyPut>, now: int)
    requires now != Clock.GO_ZERO_TIME && forall m <- chunk :: m.key.deck != ""
    modifies server
    ensures server.State() == Run(old(server.State()), StudyEvents(chunk, now))
  {
    StudyOnlyBatch(chunk, now);
    hide Run;
    var resp := server.BatchPush(Batch([], [], [], chunk, [], []), false, now);
  }

  /** `remote` lists the server's rows, restricted to the selected decks. */
  ghost predicate Advertises(remote: seq<StudyPut>, db: Db, names: Option<set<string>>) {
    forall r :: r in remote <==>
      && r.key in db.studyDays && db.studyDays[r.key].value == r.counters
      && (names.None? || InScope(r.key.deck, names.value))
  }

  ghost predicate IsUpload(ms: seq<StudyPut>, l: Local, names: Option<set<string>>) {
    DistinctDays(ms) && forall m :: m in ms <==> IsLocalRecord(l, names, m) && Meaningful(m)
  }

  /** What a deck holds after a pass, as a portable record. */
  ghost predicate Holds(l: Local, deck: string, r: StudyPut) {
    deck in l.decks && LocalRecord(deck, l.decks[deck], l.crt) == Some(r)
  }

  lemma PassTakesSupremum(l: Local, remote: seq<StudyPut>, names: Option<set<string>>, l1: Local, deck: string) returns (held: StudyPut)
    requires CountersPass(l, remote, names, l1) && deck in l.decks && deck != ""
    requires Snapshots(remote, l, names, deck) != {}
    ensures Holds(l1, deck, held) && IsSupremum(held, Snapshots(remote, l, names, deck)) && l1.crt == l.crt
    ensures forall x <- Snapshots(remote, l, names, deck) :: Precedes(x, held)
    ensures l1.decks[deck] == WithCounters(l.decks[deck], held, l.crt).(mod := l1.decks[deck].mod, usn := l1.decks[deck].usn)
  {
    held := LocalRecord(deck, l1.decks[deck], l.crt).value;
  }

  /** Where a row comes from: the old row, a snapshot pushed to it, or both. */
  lemma RowOrigin(db: Db, ms: seq<StudyPut>, now: int, key: StudyKey) returns (m: Option<StudyPut>)
    requires DistinctDays(ms) && key in Run(db, StudyEvents(ms, now)).studyDays
    ensures m.Some? ==> m.value in ms && m.value.key == key
    ensures m.None? ==> key in db.studyDays
    ensures Run(db, StudyEvents(ms, now)).studyDays[key].value ==
            if m.Some? then PushedValue(db, m.value) else db.studyDays[key].value
  {
    PushedDays(db, ms, now);
    hide Run;
    m := None;
    if x :| x in WithKey(ms, key) {
      m := Some(x);
    }
  }

  lemma IsUploadIsDistinct(l: Local, ms: seq<StudyPut>, names: Option<set<string>>)
    requires IsUpload(ms, l, names)
    ensures DistinctDays(ms)
  {
  }

  /** After a pass nothing the server now lists exceeds what the collection holds. */
  lemma NothingExceeds(l: Local, db: Db, remote: seq<StudyPut>, ms: seq<StudyPut>, names: Option<set<string>>, now: int,
                       l1: Local, r: StudyPut) returns (held: StudyPut)
    requires Advertises(remote, db, names) && IsUpload(ms, l, names) && CountersPass(l, remote, names, l1)
    requires var days := Run(db, StudyEvents(ms, now)).studyDays; r.key in days && days[r.key].value == r.counters
    requires r.key.deck in l.decks && Selected(r.key.deck, names)
    ensures Holds(l1, r.key.deck, held) && Precedes(r, held)
  {
    hide Run;
    hide CountersPass;
    hide IsSupremum;
    hide LocalRecord;
    hide Advertises;
    hide IsUpload;
    assert DistinctDays(ms) by { IsUploadIsDistinct(l, ms, names); }
    var m := RowOrigin(db, ms, now, r.key);
    Contributors(l, db, remote, ms, names, m, r.key);
    held := PassTakesSupremum(l, remote, names, l1, r.key.deck);
  }

  lemma Contributors(l: Local, db: Db, remote: seq<StudyPut>, ms: seq<StudyPut>, names: Option<set<string>>,
                     m: Option<StudyPut>, key: StudyKey)
    requires Advertises(remote, db, names) && IsUpload(ms, l, names)
    requires key.deck in l.decks && Selected(key.deck, names)
    requires m.Some? ==> m.value in ms && m.value.key == key
    ensures m.Some? ==> m.value in Snapshots(remote, l, names, key.deck)
    ensures key in db.studyDays ==> StudyPut(key, db.studyDays[key].value) in Snapshots(remote, l, names, key.deck)
  {
    hide LocalRecord;
    hide InScope;
    if m.Some? {
      assert IsLocalRecord(l, names, m.value);
    }
    if key in db.studyDays {
      assert StudyPut(key, db.studyDays[key].value) in remote;
    }
  }

  lemma GreatestIsSupremum(r: StudyPut, s: set<StudyPut>)
    requires r in s && forall x <- s :: Precedes(x, r)
    ensures IsSupremum(r, s)
  {
  }

  /** A deck whose counters already are the supremum is written back as it was. */
  lemma SupremumIsUnchanged(l: Local, remote: seq<StudyPut>, names: Option<set<string>>,
                            l1: Local, remote1: seq<StudyPut>, l2: Local, deck: string)
    requires CountersPass(l, remote, names, l1) && CountersPass(l1, remote1, names, l2)
    requires deck in l.decks && deck != "" && Selected(deck, names) && Snapshots(remote, l, names, deck) != {}
    requires forall r, held :: r in OfDeck(remote1, deck) && Holds(l1, deck, held) ==> Precedes(r, held)
    ensures l2.decks[deck] == l1.decks[deck].(mod := l2.decks[deck].mod, usn := l2.decks[deck].usn)
  {
    hide Selected;
    hide CountersPass;
    hide IsSupremum;
    hide Precedes;
    hide LocalDay;
    var held := PassTakesSupremum(l, remote, names, l1, deck);
    var seen := Snapshots(remote1, l1, names, deck);
    assert seen == OfDeck(remote1, deck) + {held};
    assert deck in l1.decks && held.key.deck == deck;
    var held1 := PassTakesSupremum(l1, remote1, names, l2, deck);
    GreatestIsSupremum(held, seen);
    SupremumIsUnique(held, held1, seen);
  }

  /**
   * A pass and its uploads reach a fixpoint: with no other writer, the next pass
   * leaves every counter of every deck as it is, for any creation day.
   */
  lemma SecondPassIsIdle(l: Local, db: Db, remote: seq<StudyPut>, ms: seq<StudyPut>, names: Option<set<string>>, now: int,
                         l1: Local, remote1: seq<StudyPut>, l2: Local, deck: string)
    requires Advertises(remote, db, names) && IsUpload(ms, l, names) && CountersPass(l, remote, names, l1)
    requires Advertises(remote1, Run(db, StudyEvents(ms, now)), names) && CountersPass(l1, remote1, names, l2)
    requires deck in l.decks
    ensures l2.decks[deck] == l1.decks[deck].(mod := l2.decks[deck].mod, usn := l2.decks[deck].usn)
  {
    if deck != "" && Snapshots(remote1, l1, names, deck) != {} {
      SnapshotsStay(l, db, remote, ms, names, now, l1, remote1, deck);
      forall r, held | r in OfDeck(remote1, deck) && Holds(l1, deck, held)
        ensures Precedes(r, held)
      {
        var held' := NothingExceeds(l, db, remote, ms, names, now, l1, r);
      }
      SupremumIsUnchanged(l, remote, names, l1, remote1, l2, deck);
    }
  }

  /** A deck with something to merge the second time had something the first time. */
  lemma SnapshotsStay(l: Local, db: Db, remote: seq<StudyPut>, ms: seq<StudyPut>, names: Option<set<string>>, now: int,
                      l1: Local, remote1: seq<StudyPut>, deck: string)
    requires Advertises(remote, db, names) && IsUpload(ms, l, names) && CountersPass(l, remote, names, l1)
    requires Advertises(remote1, Run(db, StudyEvents(ms, now)), names)
    requires deck in l.decks && deck != "" && Snapshots(remote1, l1, names, deck) != {}
    ensures Selected(deck, names) && Snapshots(remote, l, names, deck) != {}
  {
    hide Run;
    if r :| r in OfDeck(remote1, deck) {
      var m := RowOrigin(db, ms, now, r.key);
      Contributors(l, db, remote, ms, names, m, r.key);
    }
  }

  // -------------------------------------------------------- the complete pass --

  method DayList(days: map<StudyKey, Stamped<Counters>>) returns (out: seq<StudyPut>)
    ensures forall r :: r in out <==> r.key in days && days[r.key].value == r.counters
  {
    out := [];
    var rest := days.Keys;
    while rest != {}
      invariant rest <= days.Keys
      invariant forall r :: r in out <==> r.key in days && r.key !in rest && days[r.key].value == r.counters
      decreases rest
    {
      var key := Pick(rest);
      rest := rest - {key};
      out := out + [StudyPut(key, days[key].value)];
    }
  }

  /** The manifest's study days are the server's, restricted to the selected decks. */
  ghost predicate DaysListed(days: map<StudyKey, Stamped<Counters>>, db: Db, names: Option<set<string>>) {
    && (forall k :: k in days <==> k in db.studyDays && (names.None? || InScope(k.deck, names.value)))
    && (forall k :: k in days ==> days[k] == db.studyDays[k])
  }

  /**
   * sync_reviews_once over the selected decks: first the history, then the
   * counters; a visible history conflict stops the pass before either side changes.
   */
  method SyncReviewsOnce(col: Collection, server: Handler, m: Manifest, names: Option<set<string>>, clearPendingUsn: bool,
                         markPending: bool, now: int, wallClock: int)
    returns (result: ReviewSync.Result, ghost stored: set<int>, ghost mid: Local, ghost midDb: Db, ghost ms: seq<StudyPut>,
             ghost remote: seq<StudyPut>)
    requires ReviewSync.Sound(col.State()) && now != Clock.GO_ZERO_TIME
    requires ReviewSync.ReviewsListed(m.reviews, server.State()) && DaysListed(m.studyDays, server.State(), names)
    modifies col`revlog, col`decks, server
    ensures var l, db := old(col.State()), old(server.State());
      var shown := ReviewSync.ShownReviews(l, names);
      result.ReviewSyncConflict? <==>
        exists id :: ReviewSync.VisibleConflict(l, db, shown, m.reviews.Keys, id) || ReviewSync.HiddenClash(l, db, shown, m.reviews.Keys, id)
    ensures ReviewSync.HistoryPassIn(old(col.State()), old(server.State()), names, m.reviews.Keys, mid, midDb, stored)
    ensures result.ReviewSyncConflict? ==> col.State() == mid && server.State() == midDb
    ensures server.records == old(server.records) && server.cards == old(server.cards) && server.tombstones == old(server.tombstones)
    ensures col.decks.Keys == old(col.decks.Keys)
    ensures result.Synced? ==>
      && Advertises(remote, old(server.State()), names)
      && IsUpload(ms, mid, names) && server.State() == Run(midDb, StudyEvents(ms, now))
      && CountersPass(mid, remote, names, col.State())
      && (!markPending ==> SameBookkeeping(mid.decks, col.decks))
    ensures col.State() == mid.(decks := col.decks) && server.State() == midDb.(studyDays := server.studyDays)
    ensures result.Synced? ==> OwnPublished(old(col.State()), names, old(server.studyDays), server.studyDays)
  {
    ghost var l, db := col.State(), server.State();
    remote, ms := [], [];
    var list := DayList(m.studyDays);
    remote := list;
    assert Advertises(remote, db, names);
    result, stored := ReviewSync.SyncHistory(col, server, m.reviews, names, clearPendingUsn, now);
    mid, midDb := col.State(), server.State();
    HistoryOnly(l, db, names, m.reviews.Keys, mid, midDb, stored);
    if result.ReviewSyncConflict? {
      return;
    }
    hide Run;
    hide ReviewSync.HistoryPassIn;
    hide ReviewSync.VisibleConflict;
    hide ReviewSync.HiddenClash;
    hide CountersPass;
    hide Advertises;
    var localDays := LocalStudyDays(col, names);
    var meaningful := PushCounters(server, localDays, now);
    ms := meaningful;
    PushedDays(midDb, ms, now);
    PublishedIsOwn(l, mid, names, localDays, db.studyDays, server.studyDays);
    SyncCounters(col, list, localDays, names, markPending, wallClock);
  }

  /** What the selected decks count is on the server, no new row is of any other origin, and no row falls. */
  ghost predicate OwnPublished(l: Local, names: Option<set<string>>, days: map<StudyKey, Stamped<Counters>>, days': map<StudyKey, Stamped<Counters>>) {
    && (forall r :: IsOwn(l, names, r) && SomethingCounted(r.counters) ==> Reached(days', r))
    && (forall key :: key in days' && key !in days ==> IsOwn(l, names, StudyPut(key, days'[key].value)) && SomethingCounted(days'[key].value))
    && (forall key :: key in days ==> Reached(days', StudyPut(key, days[key].value)))
  }

  lemma PublishedIsOwn(l: Local, mid: Local, names: Option<set<string>>, list: seq<StudyPut>, days: map<StudyKey, Stamped<Counters>>,
                       days': map<StudyKey, Stamped<Counters>>)
    requires mid == l.(revlog := mid.revlog) && Published(days, list, days') && forall r :: r in list <==> IsOwn(mid, names, r)
    ensures OwnPublished(l, names, days, days')
  {
    forall r ensures IsOwn(mid, names, r) <==> IsOwn(l, names, r) { }
    hide IsOwn;
    hide Reached;
    forall key | key in days' && key !in days
      ensures IsOwn(l, names, StudyPut(key, days'[key].value)) && SomethingCounted(days'[key].value)
    {
      var m :| m in list && m.key == key && SomethingCounted(m.counters) && days'[key].value == m.counters;
      assert m == StudyPut(key, days'[key].value);
    }
  }

  lemma HistoryOnly(l: Local, db: Db, names: Option<set<string>>, viewed: set<int>, l': Local, db': Db, stored: set<int>)
    requires ReviewSync.HistoryPassIn(l, db, names, viewed, l', db', stored)
    ensures l' == l.(revlog := l'.revlog) && db' == db.(reviews := db'.reviews)
  {
  }
}
