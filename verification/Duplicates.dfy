// Repair of duplicated generated cards before every pass (anki_local.py:
// repair_duplicate_cards).

module Duplicates {
  import opened Prelude
  import opened Anki
  import ReviewSync

  /** The logical identity of a card; exact duplicates stand in for a blank guid. */
  datatype RepairKey = ByGuid(guid: string, ord: int) | Blank(mid: int, fields: seq<string>, tags: seq<string>, ord: int)

  /** Cards of known notes in the selected decks; no selection means every deck. */
  predicate Covered(l: Local, names: set<string>, cid: int) {
    && cid in l.cards && l.cards[cid].nid in l.notes
    && (names == {} || InScope(l.cards[cid].deck, names))
  }

  function KeyOf(l: Local, cid: int): RepairKey
    requires cid in l.cards && l.cards[cid].nid in l.notes
  {
    var card := l.cards[cid];
    var note := l.notes[card.nid];
    if note.guid != "" then ByGuid(note.guid, card.ord) else Blank(note.mid, note.fields, note.tags, card.ord)
  }

  ghost predicate SameKey(l: Local, names: set<string>, c1: int, c2: int) {
    Covered(l, names, c1) && Covered(l, names, c2) && KeyOf(l, c1) == KeyOf(l, c2)
  }

  /** A newer card of the same key exists. */
  ghost predicate Superseded(l: Local, names: set<string>, cid: int) {
    exists c :: SameKey(l, names, cid, c) && c > cid
  }

  function Keys(l: Local, names: set<string>): set<RepairKey> {
    set c | c in l.cards && Covered(l, names, c) :: KeyOf(l, c)
  }

  function CoveredCards(l: Local, names: set<string>): set<int> {
    set c | c in l.cards && Covered(l, names, c)
  }

  ghost predicate Orphaned(l: Local, removed: set<int>, nid: int) {
    && (exists c :: c in removed && c in l.cards && l.cards[c].nid == nid)
    && (forall c :: c in l.cards && c !in removed ==> l.cards[c].nid != nid)
  }

  /** The collection without some cards, their reviews, and the notes left without any card. */
  ghost function Without(l: Local, removed: set<int>): Local {
    l.(cards := l.cards - removed,
       revlog := map r | r in l.revlog && l.revlog[r].cid !in removed :: l.revlog[r],
       notes := map n | n in l.notes && !Orphaned(l, removed, n) :: l.notes[n])
  }

  ghost function SupersededCards(l: Local, names: set<string>): set<int> {
    set c | c in l.cards && Superseded(l, names, c)
  }

  // --------------------------------------------------------- what the repair is --

  ghost predicate Newest(l: Local, names: set<string>, cid: int) {
    Covered(l, names, cid) && !Superseded(l, names, cid)
  }

  lemma KeptCardsKeepTheirKey(l: Local, names: set<string>, cid: int)
    ensures var l' := Without(l, SupersededCards(l, names));
      && (Covered(l', names, cid) <==> Newest(l, names, cid))
      && (Covered(l', names, cid) ==> KeyOf(l', cid) == KeyOf(l, cid))
  {
    var removed := SupersededCards(l, names);
    if cid in l.cards && cid !in removed {
      assert !Orphaned(l, removed, l.cards[cid].nid);
    }
  }

  /** Every group has a highest id. */
  lemma GroupHasNewest(l: Local, names: set<string>, cid: int) returns (top: int)
    requires Covered(l, names, cid)
    ensures SameKey(l, names, cid, top) && Newest(l, names, top)
    decreases CoveredCards(l, names) - (set c | c in l.cards && c <= cid)
  {
    if Superseded(l, names, cid) {
      var c :| SameKey(l, names, cid, c) && c > cid;
      assert c in CoveredCards(l, names) - (set x | x in l.cards && x <= cid);
      assert c !in CoveredCards(l, names) - (set x | x in l.cards && x <= c);
      top := GroupHasNewest(l, names, c);
    } else {
      top := cid;
    }
  }

  /**
   * Afterwards each logical key in scope has exactly one card, the highest id of
   * its group; no key is lost or invented; a note goes only when none of its cards
   * is left in any deck; and a second repair finds nothing.
   */
  lemma RepairKeepsEveryKey(l: Local, names: set<string>)
    ensures var l' := Without(l, SupersededCards(l, names));
      && Keys(l', names) == Keys(l, names)
      && (forall c1, c2 :: SameKey(l', names, c1, c2) ==> c1 == c2)
      && (forall c :: Covered(l', names, c) <==> Newest(l, names, c))
      && SupersededCards(l', names) == {}
      && (forall n :: n in l.notes && n !in l'.notes ==> forall c :: c in l'.cards ==> l'.cards[c].nid != n)
  {
    var l' := Without(l, SupersededCards(l, names));
    forall c
      ensures Covered(l', names, c) <==> Newest(l, names, c)
      ensures Covered(l', names, c) ==> KeyOf(l', c) == KeyOf(l, c)
    {
      KeptCardsKeepTheirKey(l, names, c);
    }
    forall k | k in Keys(l, names)
      ensures k in Keys(l', names)
    {
      var c :| c in l.cards && Covered(l, names, c) && KeyOf(l, c) == k;
      var top := GroupHasNewest(l, names, c);
      assert Covered(l', names, top);
    }
    forall c1, c2 | SameKey(l', names, c1, c2)
      ensures c1 == c2
    {
      assert SameKey(l, names, c1, c2) && SameKey(l, names, c2, c1);
      assert !Superseded(l, names, c1) && !Superseded(l, names, c2);
    }
  }

  /** The number of cards removed is the number of covered cards minus the number of keys. */
  lemma RemovedCount(l: Local, names: set<string>)
    ensures |SupersededCards(l, names)| == |CoveredCards(l, names)| - |Keys(l, names)|
  {
    var kept := CoveredCards(l, names) - SupersededCards(l, names);
    assert SupersededCards(l, names) <= CoveredCards(l, names);
    forall k | k in Keys(l, names)
      ensures exists c :: c in kept && KeyOf(l, c) == k
    {
      var c :| c in l.cards && Covered(l, names, c) && KeyOf(l, c) == k;
      var top := GroupHasNewest(l, names, c);
      assert top in kept;
    }
    forall c1, c2 | c1 in kept && c2 in kept && KeyOf(l, c1) == KeyOf(l, c2)
      ensures c1 == c2
    {
      assert SameKey(l, names, c1, c2) && SameKey(l, names, c2, c1);
    }
    OneEach(l, kept, Keys(l, names));
  }

  lemma {:induction false} OneEach(l: Local, cids: set<int>, keys: set<RepairKey>)
    requires forall c :: c in cids ==> c in l.cards && l.cards[c].nid in l.notes && KeyOf(l, c) in keys
    requires forall c1, c2 :: c1 in cids && c2 in cids && KeyOf(l, c1) == KeyOf(l, c2) ==> c1 == c2
    requires forall k :: k in keys ==> exists c :: c in cids && KeyOf(l, c) == k
    ensures |cids| == |keys|
    decreases cids
  {
    if cids == {} {
      assert keys == {};
    } else {
      var c := Member(cids);
      OneEach(l, cids - {c}, keys - {KeyOf(l, c)});
    }
  }

  // ------------------------------------------------------------------ the repair --

  /** All covered cards of one key, their ids ascending. */
  ghost predicate IsGroup(group: seq<int>, l: Local, names: set<string>, key: RepairKey) {
    && (forall c :: c in group <==> Covered(l, names, c) && KeyOf(l, c) == key)
    && (forall i, j :: 0 <= i < j < |group| ==> group[i] < group[j])
  }

  /** One group for every key in scope. */
  ghost predicate AreGroups(groups: map<RepairKey, seq<int>>, l: Local, names: set<string>) {
    groups.Keys == Keys(l, names) && forall k :: k in groups ==> IsGroup(groups[k], l, names, k)
  }

  /** SELECT ... ORDER BY c.id, grouped by key; each group ascends. */
  method Group(col: Collection, names: set<string>) returns (groups: map<RepairKey, seq<int>>)
    ensures AreGroups(groups, col.State(), names)
  {
    var l := col.State();
    var ids := ReviewSync.Sorted(col.cards.Keys);
    groups := map[];
    for i := 0 to |ids|
      invariant forall k :: k in groups ==> groups[k] != []
      invariant forall k :: k in groups ==> forall c ::
        c in groups[k] <==> c in ids[..i] && Covered(l, names, c) && KeyOf(l, c) == k
      invariant forall k :: k in groups ==> forall a, b :: 0 <= a < b < |groups[k]| ==> groups[k][a] < groups[k][b]
      invariant forall c :: c in ids[..i] && Covered(l, names, c) ==> KeyOf(l, c) in groups
    {
      var cid := ids[i];
      assert ids[..i + 1] == ids[..i] + [cid];
      assert cid in ids;
      if Covered(l, names, cid) {
        var key := KeyOf(l, cid);
        var group := if key in groups then groups[key] else [];
        forall a | 0 <= a < |group| ensures group[a] < cid {
          assert group[a] in group;
          assert group[a] in ids[..i];
        }
        groups := groups[key := group + [cid]];
      }
    }
    assert ids[..|ids|] == ids;
    forall k | k in groups ensures k in Keys(l, names) { assert groups[k][0] in groups[k]; }
  }

  lemma OrphansGrow(l: Local, removed: set<int>, cid: int, n: int)
    requires cid in l.cards && cid !in removed
    ensures Orphaned(l, removed + {cid}, n) <==>
      Orphaned(l, removed, n)
      || (n == l.cards[cid].nid && forall c :: c in l.cards - (removed + {cid}) ==> l.cards[c].nid != n)
  {
    var gone := removed + {cid};
    assert cid in gone;
    if Orphaned(l, removed, n) {
      var c :| c in removed && c in l.cards && l.cards[c].nid == n;
      assert c in gone;
    }
    if Orphaned(l, gone, n) && !Orphaned(l, removed, n) {
      var c :| c in gone && c in l.cards && l.cards[c].nid == n;
    }
  }

  lemma OneMoreRemoved(l: Local, removed: set<int>, cid: int, before: Local, after: Local)
    requires before == Without(l, removed) && cid in before.cards
    requires after.cards == before.cards - {cid}
    requires after.revlog == map r | r in before.revlog && before.revlog[r].cid != cid :: before.revlog[r]
    requires after.notes == if forall c <- after.cards.Keys :: after.cards[c].nid != before.cards[cid].nid
                            then before.notes - {before.cards[cid].nid} else before.notes
    requires after == before.(notes := after.notes, cards := after.cards, revlog := after.revlog)
    ensures after == Without(l, removed + {cid})
  {
    var gone := removed + {cid};
    assert after.cards == l.cards - gone;
    assert after.revlog == Without(l, gone).revlog;
    forall n { OrphansGrow(l, removed, cid, n); }
    hide Orphaned;
    assert after.notes == Without(l, gone).notes;
  }

  /** One duplicate goes, with its reviews, and its note when that was the last card. */
  method DeleteCard(col: Collection, cid: int, ghost l: Local, ghost removed: set<int>)
    requires col.State() == Without(l, removed) && cid in col.cards
    modifies col`cards, col`revlog, col`notes
    ensures col.State() == Without(l, removed + {cid})
    ensures col.cards.Keys == old(col.cards.Keys) - {cid}
  {
    ghost var before := col.State();
    var nid := col.cards[cid].nid;
    col.revlog := map r | r in col.revlog && col.revlog[r].cid != cid :: col.revlog[r];
    col.cards := col.cards - {cid};
    if forall c <- col.cards.Keys :: col.cards[c].nid != nid {
      col.notes := col.notes - {nid};
    }
    OneMoreRemoved(l, removed, cid, before, col.State());
    hide Without;
  }

  /** In an ascending group, everything but the last card is superseded. */
  lemma GroupSuperseded(l: Local, names: set<string>, key: RepairKey, group: seq<int>)
    requires forall c :: c in group <==> Covered(l, names, c) && KeyOf(l, c) == key
    requires forall i, j :: 0 <= i < j < |group| ==> group[i] < group[j]
    requires group != []
    ensures forall c :: c in group[..|group| - 1] <==> c in SupersededCards(l, names) && KeyOf(l, c) == key
  {
    var n := |group| - 1;
    assert group[n] in group;
    forall c | c in group[..n]
      ensures Superseded(l, names, c)
    {
      assert c in group;
      assert SameKey(l, names, c, group[n]);
    }
    forall c | c in SupersededCards(l, names) && KeyOf(l, c) == key
      ensures c in group[..n]
    {
      var d :| SameKey(l, names, c, d) && d > c;
      assert c in group && d in group;
      var i :| 0 <= i < |group| && group[i] == c;
      var j :| 0 <= j < |group| && group[j] == d;
      assert i < j;
    }
  }

  function ToSet(s: seq<int>): set<int> {
    set x | x in s
  }

  lemma {:induction false} AscendingSize(s: seq<int>, n: nat)
    requires n <= |s| && forall i, j :: 0 <= i < j < |s| ==> s[i] < s[j]
    ensures |ToSet(s[..n])| == n
  {
    if n > 0 {
      AscendingSize(s, n - 1);
      assert s[..n] == s[..n - 1] + [s[n - 1]];
      assert ToSet(s[..n]) == ToSet(s[..n - 1]) + {s[n - 1]};
    }
  }

  lemma NothingYet(group: seq<int>, removed: set<int>)
    ensures removed + ToSet(group[..0]) == removed
  {
  }

  lemma NextInGroup(group: seq<int>, i: nat, removed: set<int>)
    requires i < |group| && forall a, b :: 0 <= a < b < |group| ==> group[a] < group[b]
    requires group[i] !in removed
    ensures group[i] !in removed + ToSet(group[..i])
    ensures removed + ToSet(group[..i + 1]) == removed + ToSet(group[..i]) + {group[i]}
  {
    assert group[..i + 1] == group[..i] + [group[i]];
  }

  /** Cards still there, their ids ascending. */
  ghost predicate Ascending(group: seq<int>, l: Local, removed: set<int>) {
    && (forall i, j :: 0 <= i < j < |group| ==> group[i] < group[j])
    && (forall c :: c in group ==> c in l.cards && c !in removed)
  }

  /** One more card of a group. */
  method DeleteNext(col: Collection, group: seq<int>, i: nat, ghost l: Local, ghost removed: set<int>)
    requires i < |group| && Ascending(group, l, removed) && col.State() == Without(l, removed + ToSet(group[..i]))
    modifies col`cards, col`revlog, col`notes
    ensures col.State() == Without(l, removed + ToSet(group[..i + 1]))
  {
    assert group[i] in group;
    NextInGroup(group, i, removed);
    WithoutKeys(l, removed + ToSet(group[..i]));
    hide Without;
    hide ToSet;
    hide Ascending;
    DeleteCard(col, group[i], l, removed + ToSet(group[..i]));
  }

  method DeleteAllButLast(col: Collection, group: seq<int>, ghost l: Local, ghost removed: set<int>) returns (deleted: nat)
    requires group != [] && Ascending(group, l, removed) && col.State() == Without(l, removed)
    modifies col`cards, col`revlog, col`notes
    ensures col.State() == Without(l, removed + ToSet(group[..|group| - 1]))
    ensures deleted == |ToSet(group[..|group| - 1])|
  {
    deleted := 0;
    NothingYet(group, removed);
    AscendingPrefix(group, l, removed);
    hide *;
    while deleted < |group| - 1
      invariant deleted <= |group| - 1 && col.State() == Without(l, removed + ToSet(group[..deleted]))
    {
      DeleteNext(col, group, deleted, l, removed);
      deleted := deleted + 1;
    }
  }

  lemma AscendingPrefix(group: seq<int>, l: Local, removed: set<int>)
    requires group != [] && Ascending(group, l, removed)
    ensures |ToSet(group[..|group| - 1])| == |group| - 1
  {
    AscendingSize(group, |group| - 1);
  }

  lemma WithoutKeys(l: Local, removed: set<int>)
    ensures Without(l, removed).cards.Keys == l.cards.Keys - removed
  {
  }

  // What the repair leaves, told by the rows alone.

  /** Two cards in scope of one logical card: same guid and ordinal, or, without a guid, same type, text and ordinal. */
  ghost predicate Twins(l: Local, names: set<string>, c: int, d: int) {
    && c in l.cards && d in l.cards && l.cards[c].nid in l.notes && l.cards[d].nid in l.notes
    && (names == {} || (InScope(l.cards[c].deck, names) && InScope(l.cards[d].deck, names)))
    && l.cards[c].ord == l.cards[d].ord
    && var n, m := l.notes[l.cards[c].nid], l.notes[l.cards[d].nid];
       n.guid == m.guid && (n.guid == "" ==> n.mid == m.mid && n.fields == m.fields && n.tags == m.tags)
  }

  ghost predicate HasCard(cards: map<int, CardRow>, nid: int) {
    exists c :: c in cards && cards[c].nid == nid
  }

  /** A card goes if and only if it has a twin of a higher id; its reviews go with it, and a note that loses its last card. */
  ghost predicate Repaired(l: Local, names: set<string>, l': Local) {
    && l' == l.(cards := l'.cards, notes := l'.notes, revlog := l'.revlog)
    && (forall c :: c in l'.cards <==> (c in l.cards && !exists d :: Twins(l, names, c, d) && c < d))
    && (forall c :: c in l'.cards ==> l'.cards[c] == l.cards[c])
    && (forall r :: r in l'.revlog <==> (r in l.revlog && (l.revlog[r].cid in l.cards ==> l.revlog[r].cid in l'.cards)))
    && (forall r :: r in l'.revlog ==> l'.revlog[r] == l.revlog[r])
    && (forall n :: n in l'.notes <==> (n in l.notes && (HasCard(l.cards, n) ==> HasCard(l'.cards, n))))
    && (forall n :: n in l'.notes ==> l'.notes[n] == l.notes[n])
  }

  lemma TwinsShareTheKey(l: Local, names: set<string>, c: int, d: int)
    ensures Twins(l, names, c, d) <==> SameKey(l, names, c, d)
  {
  }

  lemma SupersededIff(l: Local, names: set<string>, c: int)
    ensures c in SupersededCards(l, names) <==> c in l.cards && exists d :: Twins(l, names, c, d) && c < d
  {
    forall d ensures Twins(l, names, c, d) <==> SameKey(l, names, c, d) { TwinsShareTheKey(l, names, c, d); }
    hide Twins;
    hide SameKey;
  }

  lemma OrphanedIff(l: Local, removed: set<int>, n: int)
    ensures Orphaned(l, removed, n) <==> HasCard(l.cards, n) && !HasCard(l.cards - removed, n)
  {
    var kept := l.cards - removed;
    assert forall c :: c in kept <==> c in l.cards && c !in removed;
    forall c | c in l.cards && l.cards[c].nid == n
      ensures c in kept || c in removed
      ensures c in kept ==> HasCard(kept, n)
    {
      assert c in kept ==> kept[c] == l.cards[c];
    }
  }

  lemma RepairIsExact(l: Local, names: set<string>)
    ensures Repaired(l, names, Without(l, SupersededCards(l, names)))
  {
    SupersededAreCards(l, names);
    hide *;
    CardsRepaired(l, names);
    RestRepaired(l, SupersededCards(l, names));
    IsRepaired(l, names, Without(l, SupersededCards(l, names)));
  }

  lemma SupersededAreCards(l: Local, names: set<string>)
    ensures SupersededCards(l, names) <= l.cards.Keys
  {
  }

  lemma CardsRepaired(l: Local, names: set<string>)
    ensures var l' := Without(l, SupersededCards(l, names));
      && (forall c :: c in l'.cards <==> (c in l.cards && !exists d :: Twins(l, names, c, d) && c < d))
      && (forall c :: c in l'.cards ==> l'.cards[c] == l.cards[c])
  {
    var l' := Without(l, SupersededCards(l, names));
    assert l'.cards == l.cards - SupersededCards(l, names);
    hide Without;
    hide Twins;
    hide SupersededCards;
    forall c
      ensures c in l'.cards <==> (c in l.cards && !exists d :: Twins(l, names, c, d) && c < d)
    {
      SupersededIff(l, names, c);
    }
  }

  lemma RestRepaired(l: Local, removed: set<int>)
    requires removed <= l.cards.Keys
    ensures var l' := Without(l, removed);
      && l' == l.(cards := l'.cards, notes := l'.notes, revlog := l'.revlog)
      && (forall r :: r in l'.revlog <==> (r in l.revlog && (l.revlog[r].cid in l.cards ==> l.revlog[r].cid in l'.cards)))
      && (forall r :: r in l'.revlog ==> l'.revlog[r] == l.revlog[r])
      && (forall n :: n in l'.notes <==> (n in l.notes && (HasCard(l.cards, n) ==> HasCard(l'.cards, n))))
      && (forall n :: n in l'.notes ==> l'.notes[n] == l.notes[n])
  {
    var l' := Without(l, removed);
    assert l'.cards == l.cards - removed;
    forall n | n in l.notes
      ensures n in l'.notes <==> (HasCard(l.cards, n) ==> HasCard(l'.cards, n))
    {
      OrphanedIff(l, removed, n);
      hide Orphaned;
      hide HasCard;
    }
    hide Orphaned;
    hide HasCard;
  }

  lemma IsRepaired(l: Local, names: set<string>, l': Local)
    requires l' == l.(cards := l'.cards, notes := l'.notes, revlog := l'.revlog)
    requires forall c :: c in l'.cards <==> (c in l.cards && !exists d :: Twins(l, names, c, d) && c < d)
    requires forall c :: c in l'.cards ==> l'.cards[c] == l.cards[c]
    requires forall r :: r in l'.revlog <==> (r in l.revlog && (l.revlog[r].cid in l.cards ==> l.revlog[r].cid in l'.cards))
    requires forall r :: r in l'.revlog ==> l'.revlog[r] == l.revlog[r]
    requires forall n :: n in l'.notes <==> (n in l.notes && (HasCard(l.cards, n) ==> HasCard(l'.cards, n)))
    requires forall n :: n in l'.notes ==> l'.notes[n] == l.notes[n]
    ensures Repaired(l, names, l')
  {
    hide Twins;
    hide HasCard;
  }

  /** Delete all but the newest card of every group; returns how many went. */
  method RepairDuplicateCards(col: Collection, names: set<string>) returns (deleted: nat)
    modifies col`cards, col`revlog, col`notes
    ensures col.State() == Without(old(col.State()), SupersededCards(old(col.State()), names))
    ensures deleted == |CoveredCards(old(col.State()), names)| - |Keys(old(col.State()), names)|
    ensures Repaired(old(col.State()), names, col.State())
  {
    ghost var l := col.State();
    ghost var removed: set<int> := {};
    hide *;
    var groups := Group(col, names);
    KeysOfGroups(groups, l, names);
    deleted := 0;
    var rest := groups.Keys;
    NothingRemoved(l, names);
    while rest != {}
      invariant rest <= groups.Keys == Keys(l, names)
      invariant removed == SupersededOutside(l, names, rest)
      invariant deleted == |removed| && col.State() == Without(l, removed)
      decreases rest
    {
      var key := Pick(rest);
      OneGroup(groups, l, names, rest, key);
      var n := DeleteAllButLast(col, groups[key], l, removed);
      rest := rest - {key};
      deleted := deleted + n;
      removed := removed + ToSet(groups[key][..|groups[key]| - 1]);
    }
    SupersededIsCovered(l, names);
    RemovedCount(l, names);
    RepairIsExact(l, names);
  }

  lemma KeysOfGroups(groups: map<RepairKey, seq<int>>, l: Local, names: set<string>)
    requires AreGroups(groups, l, names)
    ensures groups.Keys == Keys(l, names)
  {
  }

  /** What treating one group adds to the superseded cards already removed. */
  lemma OneGroup(groups: map<RepairKey, seq<int>>, l: Local, names: set<string>, rest: set<RepairKey>, key: RepairKey)
    requires AreGroups(groups, l, names) && key in rest && key in groups
    ensures groups[key] != [] && Ascending(groups[key], l, SupersededOutside(l, names, rest))
    ensures var older := ToSet(groups[key][..|groups[key]| - 1]);
      && SupersededOutside(l, names, rest - {key}) == SupersededOutside(l, names, rest) + older
      && SupersededOutside(l, names, rest) !! older
  {
    var group := groups[key];
    assert IsGroup(group, l, names, key);
    NonEmptyGroup(l, names, key, group);
    GroupSuperseded(l, names, key, group);
    SupersededAdvances(l, names, rest, key, group);
    hide SupersededOutside;
    hide Covered;
    hide KeyOf;
  }

  lemma NothingRemoved(l: Local, names: set<string>)
    ensures Without(l, {}) == l && SupersededOutside(l, names, Keys(l, names)) == {}
  {
  }

  /** The superseded cards of the groups already treated. */
  ghost function SupersededOutside(l: Local, names: set<string>, rest: set<RepairKey>): set<int> {
    set c | c in SupersededCards(l, names) && Covered(l, names, c) && KeyOf(l, c) !in rest
  }

  lemma SupersededAdvances(l: Local, names: set<string>, rest: set<RepairKey>, key: RepairKey, group: seq<int>)
    requires key in rest && group != []
    requires forall c :: c in group <==> Covered(l, names, c) && KeyOf(l, c) == key
    requires forall c :: c in group[..|group| - 1] <==> c in SupersededCards(l, names) && KeyOf(l, c) == key
    ensures SupersededOutside(l, names, rest - {key}) == SupersededOutside(l, names, rest) + ToSet(group[..|group| - 1])
    ensures forall c :: c in group ==> c !in SupersededOutside(l, names, rest) && c in l.cards
    ensures SupersededOutside(l, names, rest) !! ToSet(group[..|group| - 1])
  {
    SupersededIsCovered(l, names);
    hide Superseded;
    var older := group[..|group| - 1];
    forall c | c in older ensures c in group { }
    forall c
      ensures c in SupersededOutside(l, names, rest - {key}) <==> c in SupersededOutside(l, names, rest) + ToSet(older)
    {
      assert c in older <==> c in SupersededCards(l, names) && KeyOf(l, c) == key;
    }
  }

  lemma NonEmptyGroup(l: Local, names: set<string>, key: RepairKey, group: seq<int>)
    requires key in Keys(l, names)
    requires forall c :: c in group <==> Covered(l, names, c) && KeyOf(l, c) == key
    ensures group != []
  {
    var c :| c in l.cards && Covered(l, names, c) && KeyOf(l, c) == key;
    assert c in group;
  }

  lemma SupersededIsCovered(l: Local, names: set<string>)
    ensures forall c :: c in SupersededCards(l, names) ==> Covered(l, names, c)
    ensures SupersededOutside(l, names, {}) == SupersededCards(l, names)
  {
  }
}
