// Shared data model of the synchronisation server and its clients.
//
// Times are microseconds since the Unix epoch.  An Anki collection stores whole
// seconds.  A checksum is modelled as the checksummed content itself, which is
// the ideal injective digest all implementations are meant to share.

module Prelude {
  datatype Option<+T> = None | Some(value: T)

  // ------------------------------------------------------------- resources --

  /** The identity of one stored resource; also the key of a tombstone. */
  datatype Ref =
    | NoteRef(guid: string)
    | NotetypeRef(notetypeId: int)
    | DeckRef(name: string)
    | CardRef(cardId: int)

  /** The resources written under a base checksum; cards are not. */
  type GuardedRef = r: Ref | !r.CardRef? witness NoteRef("")

  /**
   * Content of the three resources guarded by a base checksum.  For notetypes
   * and decks, `shape` is the normalised JSON object, key by key, and `bookkeeping`
   * the volatile part (ids, mod, usn, daily counters) the checksum leaves out.
   */
  datatype Content =
    | NoteContent(notetypeId: int, fields: seq<string>, tags: seq<string>)
    | NotetypeContent(name: string, shape: map<string, string>, bookkeeping: string)
    | DeckContent(shape: map<string, string>, bookkeeping: string)

  datatype Digest =
    | NoDigest                     // the empty base checksum of a new resource
    | NoteDigest(fields: seq<string>, tags: seq<string>)
    | NotetypeDigest(name: string, shape: map<string, string>)
    | DeckDigest(shape: map<string, string>)

  function DigestOf(c: Content): Digest {
    match c
    case NoteContent(_, fields, tags) => NoteDigest(fields, tags)
    case NotetypeContent(name, shape, _) => NotetypeDigest(name, shape)
    case DeckContent(shape, _) => DeckDigest(shape)
  }

  datatype Record = Record(content: Content, modifiedAt: int, clientModifiedAt: int)

  // ----------------------------------------------------------------- cards --

  /** The cross-device identity of a card. */
  datatype CardKey = CardKey(guid: string, ord: int)

  datatype Scheduling = Scheduling(
    kind: int, queue: int, due: int, ivl: int, factor: int, reps: int, lapses: int,
    left: int, odue: int, odid: int, flags: int, data: string, crt: int)

  datatype Card = Card(
    cardId: int, deck: string, scheduling: Scheduling, modifiedAt: int, clientModifiedAt: int)

  // --------------------------------------------------------------- reviews --

  /** The immutable answer data of one review. */
  datatype ReviewBody = ReviewBody(
    ease: int, interval: int, lastInterval: int, factor: int, takenMillis: int, kind: int)

  /** What a review checksum covers: the portable card identity and the answer. */
  datatype ReviewDigest = ReviewDigest(guid: string, ord: int, body: ReviewBody)

  datatype Review = Review(sourceCardId: int, guid: string, ord: int, deck: string, body: ReviewBody)

  function ReviewDigestOf(r: Review): ReviewDigest {
    ReviewDigest(r.guid, r.ord, r.body)
  }

  // ------------------------------------------------------------ study days --

  datatype StudyKey = StudyKey(day: int, deck: string)

  datatype Counters = Counters(newStudied: int, reviewStudied: int, learningStudied: int, millis: int)

  function Max(a: int, b: int): int {
    if a < b then b else a
  }

  function MaxCounters(a: Counters, b: Counters): Counters {
    Counters(Max(a.newStudied, b.newStudied), Max(a.reviewStudied, b.reviewStudied),
             Max(a.learningStudied, b.learningStudied), Max(a.millis, b.millis))
  }

  // ------------------------------------------------------------------ characters --

  /** The characters with the Unicode property White_Space. */
  predicate IsUnicodeSpace(c: char) {
    var u := c as int;
    || 0x9 <= u <= 0xd || u in {0x20, 0x85, 0xa0, 0x1680, 0x2028, 0x2029, 0x202f, 0x205f, 0x3000}
    || 0x2000 <= u <= 0x200a
  }

  // ------------------------------------------------------------------ loops --

  /** Some element of a non-empty set; iteration order is never relied on. */
  method Pick<T(==)>(s: set<T>) returns (x: T)
    requires s != {}
    ensures x in s
  {
    x :| x in s;
  }

  /** Every element once, in some order. */
  method ListOf<T(==,!new)>(s: set<T>) returns (list: seq<T>)
    ensures forall x :: x in list <==> x in s
    ensures forall i, j :: 0 <= i < j < |list| ==> list[i] != list[j]
  {
    list := [];
    var rest := s;
    while rest != {}
      invariant rest <= s
      invariant forall x :: x in list <==> x in s && x !in rest
      invariant forall i, j :: 0 <= i < j < |list| ==> list[i] != list[j]
      decreases rest
    {
      var x := Pick(rest);
      forall i | 0 <= i < |list| ensures list[i] != x { assert list[i] in list; }
      rest := rest - {x};
      list := list + [x];
    }
  }

  lemma Member<T>(s: set<T>) returns (x: T)
    requires s != {}
    ensures x in s
  {
    x :| x in s;
  }

  // ------------------------------------------------------------------- sequences --

  function Filter<T(!new)>(s: seq<T>, keep: T -> bool): (r: seq<T>)
    ensures forall x :: x in r <==> x in s && keep(x)
  {
    if |s| == 0 then []
    else Filter(s[..|s| - 1], keep) + (if keep(s[|s| - 1]) then [s[|s| - 1]] else [])
  }

  lemma {:induction false} FilterSame<T(!new)>(a: seq<T>, b: seq<T>, f: T -> bool, g: T -> bool)
    requires |a| == |b| && forall i :: 0 <= i < |a| ==> f(a[i]) == g(b[i]) && (f(a[i]) ==> a[i] == b[i])
    ensures Filter(a, f) == Filter(b, g)
  {
    if |a| > 0 {
      FilterSame(a[..|a| - 1], b[..|b| - 1], f, g);
    }
  }
}
