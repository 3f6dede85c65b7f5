// Pairing decks of several sources by exact membership (namespace_compare.py:
// prepare_deck_namespace_comparison).

module Namespace {
  import opened Prelude

  /** The digest of a deck's logical keys; modelled as the set it identifies. */
  type Signature = set<CardKey>

  /** A synthetic row stands for one deck of a group of paths. */
  datatype DeckItem = DeckItem(name: string, digest: Digest, group: Option<Signature>)

  datatype CardItem = CardItem(key: CardKey, deck: string, group: Option<Signature>)

  datatype Manifest = Manifest(decks: seq<DeckItem>, cards: seq<CardItem>)

  /** Case folding never turns a name into the blank one. */
  ghost predicate KeepsBlank(fold: string -> string) {
    forall x :: fold(x) == fold("") ==> x == ""
  }

  // ----------------------------------------------------------- what a source holds --

  function Paths(fold: string -> string, cards: seq<CardItem>): set<string> {
    set c | c in cards && c.deck != "" :: fold(c.deck)
  }

  function Members(fold: string -> string, cards: seq<CardItem>, path: string): Signature {
    set c | c in cards && c.deck != "" && fold(c.deck) == path :: c.key
  }

  predicate HasRow(fold: string -> string, decks: seq<DeckItem>, path: string) {
    exists d <- decks :: d.name != "" && fold(d.name) == path
  }

  /** The indexes built for one source. */
  datatype Index = Index(
    members: map<string, Signature>, names: map<string, string>,
    rows: map<string, DeckItem>, signatures: map<Signature, seq<string>>)

  ghost predicate IndexesRows(fold: string -> string, m: Manifest, rows: map<string, DeckItem>) {
    && (forall p :: p in rows <==> HasRow(fold, m.decks, p))
    && (forall p :: p in rows ==> rows[p] in m.decks && fold(rows[p].name) == p)
  }

  ghost predicate DistinctPaths(ps: seq<string>) {
    forall i, j :: 0 <= i < j < |ps| ==> ps[i] != ps[j]
  }

  ghost predicate IndexesSignatures(members: map<string, Signature>, signatures: map<Signature, seq<string>>) {
    && (forall p :: p in members ==> members[p] in signatures)
    && (forall s :: s in signatures ==> signatures[s] != [] && DistinctPaths(signatures[s]))
    && (forall s, p :: s in signatures ==> (p in signatures[s] <==> p in members && members[p] == s))
  }

  ghost predicate Indexes(fold: string -> string, m: Manifest, ix: Index) {
    && TabulatesMembers(fold, m.cards, ix.members, ix.names) && IndexesRows(fold, m, ix.rows)
    && IndexesSignatures(ix.members, ix.signatures)
  }

  ghost predicate TabulatesMembers(fold: string -> string, cards: seq<CardItem>, members: map<string, Signature>, names: map<string, string>) {
    && members.Keys == names.Keys == Paths(fold, cards)
    && (forall p :: p in members ==> members[p] == Members(fold, cards, p) && fold(names[p]) == p)
  }

  lemma MembersGrow(fold: string -> string, cards: seq<CardItem>, c: CardItem)
    ensures Paths(fold, cards + [c]) == Paths(fold, cards) + (if c.deck != "" then {fold(c.deck)} else {})
    ensures forall p :: Members(fold, cards + [c], p)
                     == Members(fold, cards, p) + (if c.deck != "" && fold(c.deck) == p then {c.key} else {})
    ensures fold(c.deck) !in Paths(fold, cards) ==> Members(fold, cards, fold(c.deck)) == {}
  {
  }

  lemma MembersStep(fold: string -> string, cards: seq<CardItem>, c: CardItem, members: map<string, Signature>, names: map<string, string>)
    requires TabulatesMembers(fold, cards, members, names)
    ensures c.deck == "" ==> TabulatesMembers(fold, cards + [c], members, names)
    ensures c.deck != "" ==>
      var p := fold(c.deck);
      var was := if p in members then members[p] else {};
      TabulatesMembers(fold, cards + [c], members[p := was + {c.key}], names[p := c.deck])
  {
    MembersGrow(fold, cards, c);
    hide Members;
    hide Paths;
  }

  method IndexMembers(fold: string -> string, m: Manifest) returns (members: map<string, Signature>, names: map<string, string>)
    ensures TabulatesMembers(fold, m.cards, members, names)
  {
    members, names := map[], map[];
    assert TabulatesMembers(fold, m.cards[..0], members, names);
    hide TabulatesMembers;
    for i := 0 to |m.cards|
      invariant TabulatesMembers(fold, m.cards[..i], members, names)
    {
      var c := m.cards[i];
      assert m.cards[..i + 1] == m.cards[..i] + [c];
      MembersStep(fold, m.cards[..i], c, members, names);
      if c.deck != "" {
        var p := fold(c.deck);
        var was := if p in members then members[p] else {};
        members := members[p := was + {c.key}];
        names := names[p := c.deck];
      }
    }
    assert m.cards[..|m.cards|] == m.cards;
  }

  method IndexRows(fold: string -> string, m: Manifest) returns (rows: map<string, DeckItem>)
    ensures IndexesRows(fold, m, rows)
  {
    rows := map[];
    for i := 0 to |m.decks|
      invariant forall p :: p in rows <==> HasRow(fold, m.decks[..i], p)
      invariant forall p :: p in rows ==> rows[p] in m.decks && fold(rows[p].name) == p
    {
      var d := m.decks[i];
      assert m.decks[..i + 1] == m.decks[..i] + [d];
      if d.name != "" { rows := rows[fold(d.name) := d]; }
    }
    assert m.decks[..|m.decks|] == m.decks;
  }

  method IndexSignatures(members: map<string, Signature>) returns (signatures: map<Signature, seq<string>>)
    ensures IndexesSignatures(members, signatures)
  {
    signatures := map[];
    var rest := members.Keys;
    while rest != {}
      invariant rest <= members.Keys
      invariant forall p :: p in members && p !in rest ==> members[p] in signatures
      invariant forall s :: s in signatures ==> signatures[s] != [] && DistinctPaths(signatures[s])
      invariant forall s, p :: s in signatures ==> (p in signatures[s] <==> p in members && p !in rest && members[p] == s)
      invariant forall s :: s !in signatures ==> forall p :: p in members && p !in rest ==> members[p] != s
      decreases rest
    {
      var p := Pick(rest);
      rest := rest - {p};
      var s := members[p];
      signatures := signatures[s := (if s in signatures then signatures[s] else []) + [p]];
    }
  }

  method BuildIndex(fold: string -> string, m: Manifest) returns (ix: Index)
    ensures Indexes(fold, m, ix)
  {
    var members, names := IndexMembers(fold, m);
    var rows := IndexRows(fold, m);
    var signatures := IndexSignatures(members);
    ix := Index(members, names, rows, signatures);
  }

  // ---------------------------------------------------------------------- groups --

  /** The only deck of a source with exactly these members. */
  ghost predicate Owns(fold: string -> string, m: Manifest, s: Signature, path: string) {
    && path in Paths(fold, m.cards) && Members(fold, m.cards, path) == s
    && forall q :: q in Paths(fold, m.cards) && Members(fold, m.cards, q) == s ==> q == path
  }

  ghost predicate Pairs(fold: string -> string, m: Manifest, s: Signature, path: string) {
    Owns(fold, m, s, path) && HasRow(fold, m.decks, path)
  }

  /** Every source has one deck with these members, listed, and the paths are not all the same. */
  ghost predicate IsGroup(fold: string -> string, ms: seq<Manifest>, s: Signature) {
    && (forall m <- ms :: exists p :: Pairs(fold, m, s, p))
    && exists i, j, p, q ::
        0 <= i < |ms| && 0 <= j < |ms| && Pairs(fold, ms[i], s, p) && Pairs(fold, ms[j], s, q) && p != q
  }

  predicate Single(ix: Index, s: Signature) {
    s in ix.signatures && |ix.signatures[s]| == 1
  }

  lemma OwnedIsSingle(fold: string -> string, m: Manifest, ix: Index, s: Signature, p: string)
    requires Indexes(fold, m, ix) && Owns(fold, m, s, p)
    ensures Single(ix, s) && ix.signatures[s][0] == p
  {
    hide Members;
    hide Paths;
    hide HasRow;
    assert p in ix.members && ix.members[p] == s;
    var ps := ix.signatures[s];
    assert p in ps && (|ps| > 1 ==> ps[0] != ps[1]);
    forall i | 0 <= i < |ps|
      ensures ps[i] == p
    {
      assert ps[i] in ps;
      assert ps[i] in ix.members && ix.members[ps[i]] == s;
      assert Members(fold, m.cards, ps[i]) == s && ps[i] in Paths(fold, m.cards);
    }
  }

  lemma SingleIsOwned(fold: string -> string, m: Manifest, ix: Index, s: Signature)
    requires Indexes(fold, m, ix) && Single(ix, s)
    ensures Owns(fold, m, s, ix.signatures[s][0])
    ensures ix.signatures[s][0] in ix.rows <==> HasRow(fold, m.decks, ix.signatures[s][0])
  {
    hide Members;
    hide Paths;
    hide HasRow;
    var p := ix.signatures[s][0];
    assert p in ix.signatures[s];
    forall q | q in Paths(fold, m.cards) && Members(fold, m.cards, q) == s
      ensures q == p
    {
      assert q in ix.signatures[s];
    }
  }

  /** What one source's index says of a signature. */
  lemma IndexDecides(fold: string -> string, m: Manifest, ix: Index, s: Signature)
    requires Indexes(fold, m, ix)
    ensures Single(ix, s) && ix.signatures[s][0] in ix.rows ==> Pairs(fold, m, s, ix.signatures[s][0])
    ensures forall p :: Pairs(fold, m, s, p) ==> Single(ix, s) && ix.signatures[s][0] == p && p in ix.rows
  {
    if Single(ix, s) { SingleIsOwned(fold, m, ix, s); }
    hide Indexes;
    hide Owns;
    hide HasRow;
    forall p | Pairs(fold, m, s, p)
      ensures Single(ix, s) && ix.signatures[s][0] == p && p in ix.rows
    {
      OwnedIsSingle(fold, m, ix, s, p);
    }
  }

  ghost predicate AllIndexed(fold: string -> string, ms: seq<Manifest>, ixs: seq<Index>) {
    |ixs| == |ms| && forall i :: 0 <= i < |ms| ==> Indexes(fold, ms[i], ixs[i])
  }

  /** One signature: the deck each source pairs, or nothing when some condition fails. */
  method MatchSignature(ixs: seq<Index>, s: Signature, ghost fold: string -> string, ghost ms: seq<Manifest>)
    returns (paths: Option<seq<string>>)
    requires AllIndexed(fold, ms, ixs) && |ms| > 0
    ensures paths.Some? <==> IsGroup(fold, ms, s)
    ensures paths.Some? ==> |paths.value| == |ms| && forall i :: 0 <= i < |ms| ==> Pairs(fold, ms[i], s, paths.value[i])
  {
    var found: seq<string> := [];
    var differ := false;
    hide Pairs;
    hide Indexes;
    hide IsGroup;
    for i := 0 to |ixs|
      invariant |found| == i && forall j :: 0 <= j < i ==> Pairs(fold, ms[j], s, found[j])
      invariant differ <==> exists j :: 0 <= j < i && found[j] != found[0]
    {
      IndexDecides(fold, ms[i], ixs[i], s);
      if !Single(ixs[i], s) || ixs[i].signatures[s][0] !in ixs[i].rows {
        NotAGroup(fold, ms, s, i);
        return None;
      }
      found := found + [ixs[i].signatures[s][0]];
      if found[i] != found[0] { differ := true; }
    }
    if !differ {
      SamePathEverywhere(fold, ms, s, found);
      return None;
    }
    GroupFound(fold, ms, s, found);
    paths := Some(found);
  }

  lemma NotAGroup(fold: string -> string, ms: seq<Manifest>, s: Signature, i: nat)
    requires i < |ms| && forall p :: !Pairs(fold, ms[i], s, p)
    ensures !IsGroup(fold, ms, s)
  {
    hide Pairs;
    assert ms[i] in ms;
  }

  lemma GroupFound(fold: string -> string, ms: seq<Manifest>, s: Signature, found: seq<string>)
    requires |found| == |ms| && exists j :: 0 <= j < |ms| && found[j] != found[0]
    requires forall i :: 0 <= i < |ms| ==> Pairs(fold, ms[i], s, found[i])
    ensures IsGroup(fold, ms, s)
  {
    hide Pairs;
    var j :| 0 <= j < |ms| && found[j] != found[0];
    forall m | m in ms ensures exists p :: Pairs(fold, m, s, p) {
      var i :| 0 <= i < |ms| && ms[i] == m;
      assert Pairs(fold, ms[i], s, found[i]);
    }
    assert Pairs(fold, ms[j], s, found[j]) && Pairs(fold, ms[0], s, found[0]);
  }

  lemma SamePathEverywhere(fold: string -> string, ms: seq<Manifest>, s: Signature, found: seq<string>)
    requires |found| == |ms| && forall i :: 0 <= i < |ms| ==> Pairs(fold, ms[i], s, found[i]) && found[i] == found[0]
    ensures !IsGroup(fold, ms, s)
  {
    forall i, p | 0 <= i < |ms| && Pairs(fold, ms[i], s, p)
      ensures p == found[0]
    {
      assert Pairs(fold, ms[i], s, found[i]);
    }
  }

  // --------------------------------------------------------------- applying groups --

  /** The tag of a card once the groups of `gs` were applied. */
  ghost function Tagged(fold: string -> string, m: Manifest, gs: set<Signature>, c: CardItem): CardItem {
    var path := fold(c.deck);
    var s := Members(fold, m.cards, path);
    if s in gs && Owns(fold, m, s, path) then c.(group := Some(s)) else c
  }

  /** Rows replaced by a synthetic one, and empty shells at another source's path. */
  ghost predicate IsRemoved(fold: string -> string, ms: seq<Manifest>, i: nat, gs: set<Signature>, path: string)
    requires i < |ms|
  {
    exists s, j :: s in gs && 0 <= j < |ms| && Owns(fold, ms[j], s, path) && (i == j || path !in Paths(fold, ms[i].cards))
  }

  /** One row per group, for the deck this source pairs. */
  ghost predicate IsSynthetic(fold: string -> string, m: Manifest, gs: set<Signature>, rows: seq<DeckItem>) {
    && |rows| == |gs|
    && (forall r :: r in rows ==> r.group.Some? && r.group.value in gs && Owns(fold, m, r.group.value, fold(r.name)))
    && (forall s :: s in gs ==> exists r :: r in rows && r.group == Some(s))
  }

  method TagCards(fold: string -> string, cards: seq<CardItem>, path: string, s: Signature) returns (tagged: seq<CardItem>)
    ensures |tagged| == |cards|
    ensures forall k :: 0 <= k < |cards| ==>
      tagged[k] == if fold(cards[k].deck) == path then cards[k].(group := Some(s)) else cards[k]
  {
    tagged := [];
    for i := 0 to |cards|
      invariant |tagged| == i
      invariant forall k :: 0 <= k < i ==>
        tagged[k] == if fold(cards[k].deck) == path then cards[k].(group := Some(s)) else cards[k]
    {
      tagged := tagged + [if fold(cards[i].deck) == path then cards[i].(group := Some(s)) else cards[i]];
    }
  }

  /** The work done so far on one source. */
  ghost predicate SourceDone(fold: string -> string, ms: seq<Manifest>, i: nat, gs: set<Signature>,
                             cards: seq<CardItem>, synthetic: seq<DeckItem>, removed: set<string>)
    requires i < |ms|
  {
    && |cards| == |ms[i].cards|
    && (forall k :: 0 <= k < |cards| ==> cards[k] == Tagged(fold, ms[i], gs, ms[i].cards[k]))
    && IsSynthetic(fold, ms[i], gs, synthetic)
    && (forall p :: p in removed <==> IsRemoved(fold, ms, i, gs, p))
  }

  lemma TagsAdvance(fold: string -> string, m: Manifest, gs: set<Signature>, s: Signature, path: string, c: CardItem)
    requires Owns(fold, m, s, path) && s !in gs
    ensures Tagged(fold, m, gs + {s}, c)
         == if fold(c.deck) == path then Tagged(fold, m, gs, c).(group := Some(s)) else Tagged(fold, m, gs, c)
    ensures Tagged(fold, m, gs, c).deck == c.deck
  {
    hide Members;
    hide Paths;
  }

  lemma SyntheticAdvances(fold: string -> string, m: Manifest, gs: set<Signature>, s: Signature, rows: seq<DeckItem>, row: DeckItem)
    requires IsSynthetic(fold, m, gs, rows) && s !in gs
    requires row.group == Some(s) && Owns(fold, m, s, fold(row.name))
    ensures IsSynthetic(fold, m, gs + {s}, rows + [row])
  {
    hide Owns;
    forall x | x in gs + {s} ensures exists r :: r in rows + [row] && r.group == Some(x) {
      if x == s { assert row in rows + [row]; } else {
        var r :| r in rows && r.group == Some(x);
        assert r in rows + [row];
      }
    }
  }

  /** The paths group `s` removes from source `i`. */
  ghost predicate Removes(fold: string -> string, ms: seq<Manifest>, i: nat, paths: seq<string>, p: string)
    requires i < |ms| && |paths| == |ms|
  {
    p == paths[i] || (p in paths && p !in Paths(fold, ms[i].cards))
  }

  lemma RemovalAdvances(fold: string -> string, ms: seq<Manifest>, i: nat, gs: set<Signature>, s: Signature, paths: seq<string>, p: string)
    requires i < |ms| && |paths| == |ms| && forall j :: 0 <= j < |ms| ==> Owns(fold, ms[j], s, paths[j])
    ensures IsRemoved(fold, ms, i, gs + {s}, p) <==> IsRemoved(fold, ms, i, gs, p) || Removes(fold, ms, i, paths, p)
  {
    forall j | 0 <= j < |ms|
      ensures Owns(fold, ms[j], s, p) <==> p == paths[j]
    {
    }
    hide Owns;
    if Removes(fold, ms, i, paths, p) {
      var j := if p == paths[i] then i else var k :| 0 <= k < |paths| && paths[k] == p; k;
      assert s in gs + {s} && Owns(fold, ms[j], s, p);
    }
    if IsRemoved(fold, ms, i, gs, p) {
      var x, j :| x in gs && 0 <= j < |ms| && Owns(fold, ms[j], x, p) && (i == j || p !in Paths(fold, ms[i].cards));
      assert x in gs + {s};
    }
    if IsRemoved(fold, ms, i, gs + {s}, p) {
      var x, j :| x in gs + {s} && 0 <= j < |ms| && Owns(fold, ms[j], x, p) && (i == j || p !in Paths(fold, ms[i].cards));
      if x == s { assert p == paths[j] && p in paths; }
    }
  }

  lemma SourceAdvances(fold: string -> string, ms: seq<Manifest>, i: nat, gs: set<Signature>, s: Signature, paths: seq<string>,
                       cards: seq<CardItem>, synthetic: seq<DeckItem>, removed: set<string>,
                       cards': seq<CardItem>, row: DeckItem, removed': set<string>)
    requires i < |ms| && SourceDone(fold, ms, i, gs, cards, synthetic, removed) && s !in gs
    requires |paths| == |ms| && forall j :: 0 <= j < |ms| ==> Owns(fold, ms[j], s, paths[j])
    requires row.group == Some(s) && fold(row.name) == paths[i]
    requires |cards'| == |cards|
    requires forall k :: 0 <= k < |cards| ==> cards'[k] == if fold(cards[k].deck) == paths[i] then cards[k].(group := Some(s)) else cards[k]
    requires forall p :: p in removed' <==> p in removed || Removes(fold, ms, i, paths, p)
    ensures SourceDone(fold, ms, i, gs + {s}, cards', synthetic + [row], removed')
  {
    hide Owns;
    hide Removes;
    forall k | 0 <= k < |cards|
      ensures cards'[k] == Tagged(fold, ms[i], gs + {s}, ms[i].cards[k])
    {
      TagsAdvance(fold, ms[i], gs, s, paths[i], ms[i].cards[k]);
    }
    SyntheticAdvances(fold, ms[i], gs, s, synthetic, row);
    forall p ensures p in removed' <==> IsRemoved(fold, ms, i, gs + {s}, p) {
      RemovalAdvances(fold, ms, i, gs, s, paths, p);
    }
  }

  /** Paths of the group that are shells in this source, and its own. */
  method PathsToRemove(ix: Index, paths: seq<string>, own: string, ghost fold: string -> string, ghost ms: seq<Manifest>, ghost i: nat)
    returns (gone: set<string>)
    requires i < |ms| && |paths| == |ms| && own == paths[i] && Indexes(fold, ms[i], ix)
    ensures forall p :: p in gone <==> Removes(fold, ms, i, paths, p)
  {
    gone := {own} + set p | p in paths && p !in ix.members;
    assert forall p :: p in ix.members <==> p in Paths(fold, ms[i].cards);
    hide Paths;
    hide Indexes;
  }

  // -------------------------------------------------------------------- the method --

  function Kept(decks: seq<DeckItem>, removed: set<string>, fold: string -> string): seq<DeckItem> {
    Filter(decks, (d: DeckItem) => fold(d.name) !in removed)
  }

  lemma {:induction false} NothingDropped(decks: seq<DeckItem>, fold: string -> string)
    ensures Kept(decks, {}, fold) == decks
  {
    if |decks| > 0 { NothingDropped(decks[..|decks| - 1], fold); }
  }

  ghost predicate Replaced(fold: string -> string, ms: seq<Manifest>, i: nat, gs: set<Signature>, decks: seq<DeckItem>,
                           synthetic: seq<DeckItem>, removed: set<string>)
    requires i < |ms|
  {
    && decks == Kept(ms[i].decks, removed, fold) + synthetic
    && IsSynthetic(fold, ms[i], gs, synthetic)
    && (forall p :: p in removed <==> IsRemoved(fold, ms, i, gs, p))
  }

  /** What one source looks like in the end. */
  ghost predicate Prepared(fold: string -> string, ms: seq<Manifest>, i: nat, gs: set<Signature>, m': Manifest)
    requires i < |ms|
  {
    && |m'.cards| == |ms[i].cards|
    && (forall k :: 0 <= k < |m'.cards| ==> m'.cards[k] == Tagged(fold, ms[i], gs, ms[i].cards[k]))
    && exists synthetic, removed :: Replaced(fold, ms, i, gs, m'.decks, synthetic, removed)
  }

  /** One source's share of a group. */
  method ApplyToSource(fold: string -> string, ix: Index, s: Signature, paths: seq<string>, i: nat,
                       cards: seq<CardItem>, synthetic: seq<DeckItem>, removed: set<string>, ghost ms: seq<Manifest>, ghost gs: set<Signature>)
    returns (cards': seq<CardItem>, synthetic': seq<DeckItem>, removed': set<string>)
    requires i < |ms| && |paths| == |ms| && s !in gs
    requires forall j :: 0 <= j < |ms| ==> Owns(fold, ms[j], s, paths[j])
    requires HasRow(fold, ms[i].decks, paths[i]) && Indexes(fold, ms[i], ix)
    requires SourceDone(fold, ms, i, gs, cards, synthetic, removed)
    ensures SourceDone(fold, ms, i, gs + {s}, cards', synthetic', removed')
  {
    hide *;
    RowIsIndexed(fold, ms[i], ix, paths[i]);
    var row := ix.rows[paths[i]].(group := Some(s));
    cards' := TagCards(fold, cards, paths[i], s);
    var gone := PathsToRemove(ix, paths, paths[i], fold, ms, i);
    synthetic', removed' := synthetic + [row], removed + gone;
    SourceAdvances(fold, ms, i, gs, s, paths, cards, synthetic, removed, cards', row, removed');
  }

  class Comparison {
    var manifests: seq<Manifest>

    constructor (ms: seq<Manifest>)
      ensures manifests == ms
    {
      manifests := ms;
    }

    /** Signatures found in every source. */
    method CommonSignatures(ixs: seq<Index>) returns (common: set<Signature>)
      requires |ixs| > 0
      ensures forall s :: s in common <==> forall i :: 0 <= i < |ixs| ==> s in ixs[i].signatures
    {
      common := ixs[0].signatures.Keys;
      for i := 1 to |ixs|
        invariant forall s :: s in common <==> forall j :: 0 <= j < i ==> s in ixs[j].signatures
      {
        common := common * ixs[i].signatures.Keys;
      }
    }

    method BuildIndexes(fold: string -> string) returns (ixs: seq<Index>)
      ensures AllIndexed(fold, manifests, ixs)
    {
      ixs := [];
      for i := 0 to |manifests|
        invariant |ixs| == i && forall j :: 0 <= j < i ==> Indexes(fold, manifests[j], ixs[j])
      {
        var ix := BuildIndex(fold, manifests[i]);
        ixs := ixs + [ix];
      }
    }

    /** Tag, replace and remove in every source for one matched signature. */
    method ApplyGroup(fold: string -> string, ixs: seq<Index>, s: Signature, paths: seq<string>,
                      cards: seq<seq<CardItem>>, synthetic: seq<seq<DeckItem>>, removed: seq<set<string>>, ghost gs: set<Signature>)
      returns (cards': seq<seq<CardItem>>, synthetic': seq<seq<DeckItem>>, removed': seq<set<string>>)
      requires AllIndexed(fold, manifests, ixs) && s !in gs
      requires |paths| == |manifests| && forall i :: 0 <= i < |manifests| ==> Pairs(fold, manifests[i], s, paths[i])
      requires AllDone(fold, manifests, gs, cards, synthetic, removed)
      ensures AllDone(fold, manifests, gs + {s}, cards', synthetic', removed')
    {
      hide *;
      ghost var ms := manifests;
      cards', synthetic', removed' := [], [], [];
      BeforeGroup(fold, ms, ixs, s, paths, cards, synthetic, removed, gs);
      for i := 0 to |manifests|
        invariant |cards'| == |synthetic'| == |removed'| == i
        invariant forall j :: 0 <= j < i ==> SourceDone(fold, ms, j, gs + {s}, cards'[j], synthetic'[j], removed'[j])
      {
        var tagged, rows, gone := ApplyToSource(fold, ixs[i], s, paths, i, cards[i], synthetic[i], removed[i], ms, gs);
        cards', synthetic', removed' := cards' + [tagged], synthetic' + [rows], removed' + [gone];
      }
      AllSourcesDone(fold, ms, gs + {s}, cards', synthetic', removed');
    }

    /**
     * Replace each path mismatch between decks of equal membership by one synthetic
     * row per source; returns how many.
     */
    method Prepare(fold: string -> string) returns (count: nat, ghost gs: set<Signature>)
      requires KeepsBlank(fold)
      modifies this
      ensures |manifests| == |old(manifests)| && count == |gs|
      ensures |manifests| > 0 ==> forall s :: s in gs <==> IsGroup(fold, old(manifests), s)
      ensures forall i :: 0 <= i < |manifests| ==> Prepared(fold, old(manifests), i, gs, manifests[i])
    {
      hide AllDone;
      hide AllIndexed;
      hide IsGroup;
      ghost var ms := manifests;
      gs := {};
      if |manifests| == 0 {
        return 0, gs;
      }
      var ixs := BuildIndexes(fold);
      var common := CommonSignatures(ixs);
      var cards := seq(|manifests|, i requires 0 <= i < |manifests| reads this => manifests[i].cards);
      var synthetic: seq<seq<DeckItem>> := seq(|manifests|, _ => []);
      var removed: seq<set<string>> := seq(|manifests|, _ => {});
      NothingDone(fold, ms, cards, synthetic, removed);
      count := 0;
      var rest := common;
      while rest != {}
        invariant rest <= common && manifests == ms && count == |gs|
        invariant forall s :: s in gs <==> s in common && s !in rest && IsGroup(fold, ms, s)
        invariant AllDone(fold, ms, gs, cards, synthetic, removed)
        decreases rest
      {
        var s := Pick(rest);
        rest := rest - {s};
        var paths := MatchSignature(ixs, s, fold, ms);
        if paths.Some? {
          cards, synthetic, removed := ApplyGroup(fold, ixs, s, paths.value, cards, synthetic, removed, gs);
          count := count + 1;
          gs := gs + {s};
        }
      }
      forall s | IsGroup(fold, ms, s) ensures s in common { GroupIsCommon(fold, ms, ixs, s); }
      Finish(fold, cards, synthetic, removed, count, gs);
    }

    method Finish(fold: string -> string, cards: seq<seq<CardItem>>, synthetic: seq<seq<DeckItem>>, removed: seq<set<string>>,
                  count: nat, ghost gs: set<Signature>)
      requires AllDone(fold, manifests, gs, cards, synthetic, removed) && count == |gs|
      modifies this
      ensures |manifests| == |old(manifests)|
      ensures forall i :: 0 <= i < |manifests| ==> Prepared(fold, old(manifests), i, gs, manifests[i])
    {
      ghost var ms := manifests;
      var out := [];
      for i := 0 to |manifests|
        invariant |out| == i && manifests == ms && forall j :: 0 <= j < i ==> Prepared(fold, ms, j, gs, out[j])
      {
        var decks := manifests[i].decks;
        if count > 0 {
          decks := Kept(decks, removed[i], fold) + synthetic[i];
        }
        assert SourceDone(fold, ms, i, gs, cards[i], synthetic[i], removed[i]);
        DecksAreReplaced(fold, ms, i, gs, synthetic[i], removed[i], cards[i], decks);
        hide *;
        out := out + [Manifest(decks, cards[i])];
      }
      manifests := out;
    }
  }

  ghost predicate AllDone(fold: string -> string, ms: seq<Manifest>, gs: set<Signature>,
                          cards: seq<seq<CardItem>>, synthetic: seq<seq<DeckItem>>, removed: seq<set<string>>)
  {
    && |cards| == |synthetic| == |removed| == |ms|
    && forall i :: 0 <= i < |ms| ==> SourceDone(fold, ms, i, gs, cards[i], synthetic[i], removed[i])
  }

  lemma BeforeGroup(fold: string -> string, ms: seq<Manifest>, ixs: seq<Index>, s: Signature, paths: seq<string>,
                    cards: seq<seq<CardItem>>, synthetic: seq<seq<DeckItem>>, removed: seq<set<string>>, gs: set<Signature>)
    requires AllIndexed(fold, ms, ixs) && AllDone(fold, ms, gs, cards, synthetic, removed)
    requires |paths| == |ms| && forall i :: 0 <= i < |ms| ==> Pairs(fold, ms[i], s, paths[i])
    ensures |ixs| == |cards| == |synthetic| == |removed| == |ms|
    ensures forall i :: 0 <= i < |ms| ==>
      && Owns(fold, ms[i], s, paths[i]) && HasRow(fold, ms[i].decks, paths[i])
      && Indexes(fold, ms[i], ixs[i]) && SourceDone(fold, ms, i, gs, cards[i], synthetic[i], removed[i])
  {
    hide Owns;
    hide HasRow;
    hide Indexes;
    hide SourceDone;
  }

  lemma AllSourcesDone(fold: string -> string, ms: seq<Manifest>, gs: set<Signature>,
                       cards: seq<seq<CardItem>>, synthetic: seq<seq<DeckItem>>, removed: seq<set<string>>)
    requires |cards| == |synthetic| == |removed| == |ms|
    requires forall i :: 0 <= i < |ms| ==> SourceDone(fold, ms, i, gs, cards[i], synthetic[i], removed[i])
    ensures AllDone(fold, ms, gs, cards, synthetic, removed)
  {
  }

  lemma NothingDone(fold: string -> string, ms: seq<Manifest>, cards: seq<seq<CardItem>>, synthetic: seq<seq<DeckItem>>, removed: seq<set<string>>)
    requires |cards| == |synthetic| == |removed| == |ms|
    requires forall i :: 0 <= i < |ms| ==> cards[i] == ms[i].cards && synthetic[i] == [] && removed[i] == {}
    ensures AllDone(fold, ms, {}, cards, synthetic, removed)
  {
  }

  lemma RowIsIndexed(fold: string -> string, m: Manifest, ix: Index, path: string)
    requires Indexes(fold, m, ix) && HasRow(fold, m.decks, path)
    ensures path in ix.rows && fold(ix.rows[path].name) == path
  {
  }

  lemma GroupIsCommon(fold: string -> string, ms: seq<Manifest>, ixs: seq<Index>, s: Signature)
    requires AllIndexed(fold, ms, ixs) && IsGroup(fold, ms, s)
    ensures forall i :: 0 <= i < |ixs| ==> s in ixs[i].signatures
  {
    hide Pairs;
    hide Indexes;
    forall i | 0 <= i < |ixs|
      ensures s in ixs[i].signatures
    {
      assert ms[i] in ms;
      var p :| Pairs(fold, ms[i], s, p);
      IndexDecides(fold, ms[i], ixs[i], s);
    }
  }

  lemma DecksAreReplaced(fold: string -> string, ms: seq<Manifest>, i: nat, gs: set<Signature>, synthetic: seq<DeckItem>,
                         removed: set<string>, cards: seq<CardItem>, decks: seq<DeckItem>)
    requires i < |ms| && SourceDone(fold, ms, i, gs, cards, synthetic, removed)
    requires decks == if |gs| > 0 then Kept(ms[i].decks, removed, fold) + synthetic else ms[i].decks
    ensures Prepared(fold, ms, i, gs, Manifest(decks, cards))
  {
    if |gs| == 0 {
      assert gs == {} && synthetic == [] && removed == {};
      NothingDropped(ms[i].decks, fold);
      assert ms[i].decks + [] == ms[i].decks;
    }
    assert Replaced(fold, ms, i, gs, decks, synthetic, removed);
  }

  // ------------------------------------------------------------------- soundness --

  ghost predicate KeysAreUnique(cards: seq<CardItem>) {
    forall i, j :: 0 <= i < |cards| && 0 <= j < |cards| && cards[i].key == cards[j].key ==> i == j
  }

  ghost predicate Untagged(m: Manifest) {
    forall c <- m.cards :: c.group.None?
  }

  /** A tagged card is in the deck its source pairs; its key is one of the group's. */
  lemma TaggedMeansMember(fold: string -> string, m: Manifest, gs: set<Signature>, c: CardItem)
    requires KeepsBlank(fold) && c in m.cards && c.group.None?
    ensures var t := Tagged(fold, m, gs, c);
      t.group.Some? ==> t.group.value in gs && c.key in t.group.value && Owns(fold, m, t.group.value, fold(c.deck))
  {
    var path := fold(c.deck);
    if path in Paths(fold, m.cards) {
      var x :| x in m.cards && x.deck != "" && fold(x.deck) == path;
      assert c.deck != "";
      assert c.key in Members(fold, m.cards, path);
    }
  }

  /** Conversely, a source that owns a group's deck tags the card of each of its keys. */
  lemma MemberIsTagged(fold: string -> string, m: Manifest, gs: set<Signature>, s: Signature, path: string, key: CardKey)
    requires s in gs && Owns(fold, m, s, path) && key in s
    ensures exists c :: c in m.cards && c.key == key && Tagged(fold, m, gs, c).group == Some(s)
  {
    var c :| c in m.cards && c.deck != "" && fold(c.deck) == path && c.key == key;
  }

  /**
   * A logical card is tagged with the same group in every source, or in none: if a
   * source tags it, every source has it and tags it alike.
   */
  lemma CardsAreTaggedAlike(fold: string -> string, ms: seq<Manifest>, gs: set<Signature>, i: nat, j: nat, c: CardItem, s: Signature)
    requires KeepsBlank(fold) && forall m <- ms :: KeysAreUnique(m.cards) && Untagged(m)
    requires forall x :: x in gs <==> IsGroup(fold, ms, x)
    requires i < |ms| && j < |ms| && c in ms[i].cards && Tagged(fold, ms[i], gs, c).group == Some(s)
    ensures exists d :: d in ms[j].cards && d.key == c.key
    ensures forall d :: d in ms[j].cards && d.key == c.key ==> Tagged(fold, ms[j], gs, d).group == Some(s)
  {
    assert ms[i] in ms && ms[j] in ms;
    TaggedMeansMember(fold, ms[i], gs, c);
    var p :| Pairs(fold, ms[j], s, p);
    MemberIsTagged(fold, ms[j], gs, s, p, c.key);
    var d0 :| d0 in ms[j].cards && d0.key == c.key && Tagged(fold, ms[j], gs, d0).group == Some(s);
    hide Tagged;
    forall d | d in ms[j].cards && d.key == c.key
      ensures d == d0
    {
    }
  }

  /** No row of a populated deck disappears unless its own deck was paired. */
  lemma PopulatedRowsStay(fold: string -> string, ms: seq<Manifest>, i: nat, gs: set<Signature>, path: string)
    requires i < |ms| && path in Paths(fold, ms[i].cards)
    requires IsRemoved(fold, ms, i, gs, path)
    ensures exists s :: s in gs && Owns(fold, ms[i], s, path)
  {
    hide Owns;
    hide Paths;
  }

  /** Each source gains exactly one synthetic row per group, and keeps every row that stays. */
  lemma RowsAreAccountedFor(fold: string -> string, ms: seq<Manifest>, i: nat, gs: set<Signature>, m': Manifest)
    requires i < |ms| && Prepared(fold, ms, i, gs, m') && forall d <- ms[i].decks :: d.group.None?
    ensures |Synthetic(m'.decks)| == |gs|
    ensures forall d <- ms[i].decks :: IsRemoved(fold, ms, i, gs, fold(d.name)) || d in m'.decks
  {
    var synthetic: seq<DeckItem>, removed :| Replaced(fold, ms, i, gs, m'.decks, synthetic, removed);
    SyntheticConcat(Kept(ms[i].decks, removed, fold), synthetic);
    var kept := Kept(ms[i].decks, removed, fold);
    forall k | 0 <= k < |kept| ensures kept[k].group.None? { assert kept[k] in kept; }
    forall k | 0 <= k < |synthetic| ensures synthetic[k].group.Some? { assert synthetic[k] in synthetic; }
    NoneSynthetic(kept);
    AllSynthetic(synthetic);
  }

  function Synthetic(rows: seq<DeckItem>): seq<DeckItem> {
    if |rows| == 0 then []
    else Synthetic(rows[..|rows| - 1]) + (if rows[|rows| - 1].group.Some? then [rows[|rows| - 1]] else [])
  }

  lemma {:induction false} SyntheticConcat(a: seq<DeckItem>, b: seq<DeckItem>)
    ensures Synthetic(a + b) == Synthetic(a) + Synthetic(b)
  {
    if |b| == 0 {
      assert a + b == a;
    } else {
      assert (a + b)[..|a + b| - 1] == a + b[..|b| - 1];
      SyntheticConcat(a, b[..|b| - 1]);
    }
  }

  lemma {:induction false} NoneSynthetic(rows: seq<DeckItem>)
    requires forall i :: 0 <= i < |rows| ==> rows[i].group.None?
    ensures Synthetic(rows) == []
  {
    if |rows| > 0 {
      NoneSynthetic(rows[..|rows| - 1]);
    }
  }

  lemma {:induction false} AllSynthetic(rows: seq<DeckItem>)
    requires forall i :: 0 <= i < |rows| ==> rows[i].group.Some?
    ensures Synthetic(rows) == rows
  {
    if |rows| > 0 {
      AllSynthetic(rows[..|rows| - 1]);
      assert rows == rows[..|rows| - 1] + [rows[|rows| - 1]];
    }
  }
}
