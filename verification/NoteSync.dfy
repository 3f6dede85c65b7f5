// The note pass: plan by checksum, newest-wins or canonical relay, pull, push
// (note_sync.py: sync_notes_once; anki_apply.py: apply_note).

module NoteSync {
  import opened Prelude
  import opened Clock
  import opened ServerSpec
  import opened ServerRuns
  import opened Anki
  import opened Server

  /** How one pass runs: its policy and the clocks it meets. */
  datatype Env = Env(newestWins: bool, now: int, pushedAt: int, wallClock: nat)

  /** The text of a note, as Anki's rewriting sees it. */
  datatype Text = Text(fields: seq<string>, tags: seq<string>)

  /** One guid, on both sides. */
  datatype Pair = Pair(local: Option<NoteRow>, server: Option<Record>)

  datatype Plan = Skip | Push | Pull | Relay | Conflict

  function TextOf(n: NoteRow): Text {
    Text(n.fields, n.tags)
  }

  predicate IsNote(r: Record) {
    r.content.NoteContent?
  }

  function ServerText(r: Record): Text
    requires IsNote(r)
  {
    Text(r.content.fields, r.content.tags)
  }

  // -------------------------------------------------------------- equivalence --

  function Normalized(nfc: string -> string, xs: seq<string>): seq<string> {
    seq(|xs|, i requires 0 <= i < |xs| => nfc(xs[i]))
  }

  /** Equal up to Unicode composition and tag order. */
  predicate CanonicallyEquivalent(nfc: string -> string, a: Text, b: Text) {
    && Normalized(nfc, a.fields) == Normalized(nfc, b.fields)
    && multiset(Normalized(nfc, a.tags)) == multiset(Normalized(nfc, b.tags))
  }

  /** Anki may rewrite what it stores, but only within equivalence. */
  ghost predicate Faithful(nfc: string -> string, rewrite: Text -> Text) {
    forall t :: CanonicallyEquivalent(nfc, rewrite(t), t)
  }

  // ------------------------------------------------------------------ planning --

  predicate WellTyped(p: Pair) {
    p.server.Some? ==> IsNote(p.server.value)
  }

  predicate InSync(p: Pair)
    requires WellTyped(p)
  {
    p.local.Some? && p.server.Some? && TextOf(p.local.value) == ServerText(p.server.value)
  }

  function WinnerOf(p: Pair, e: Env): Option<Winner>
    requires p.local.Some? && p.server.Some?
  {
    if e.newestWins then
      NewestSide(LocalStamps(p.local.value.mod),
                 ServerStamps(p.server.value.modifiedAt, p.server.value.clientModifiedAt), Some(e.now))
    else None
  }

  function PlanOf(nfc: string -> string, p: Pair, e: Env): Plan
    requires WellTyped(p)
  {
    if p.local.None? && p.server.None? then Skip
    else if p.server.None? then Push
    else if p.local.None? then Pull
    else if InSync(p) then Skip
    else
      match WinnerOf(p, e)
      case Some(Server) => Pull
      case Some(Local) => Push
      case None =>
        if CanonicallyEquivalent(nfc, TextOf(p.local.value), ServerText(p.server.value)) then Relay else Conflict
  }

  // ------------------------------------------------------------------ outcomes --

  /** Pad or truncate to the local schema. */
  function Padded(fields: seq<string>, n: nat): (r: seq<string>)
    ensures |r| == n
    ensures |fields| == n ==> r == fields
  {
    if |fields| >= n then fields[..n] else fields + seq(n - |fields|, _ => "")
  }

  /** The field count a pulled note must have locally, if the note can be stored at all. */
  function LocalCount(p: Pair, notetypes: map<int, NotetypeRow>): Option<nat>
    requires WellTyped(p) && p.server.Some?
  {
    if p.local.Some? then Some(|p.local.value.fields|)
    else
      var mid := p.server.value.content.notetypeId;
      if mid != 0 && mid in notetypes then Some(notetypes[mid].fieldCount) else None
  }

  /** What a pull leaves in the collection; None when the note cannot be created. */
  function Applied(rewrite: Text -> Text, guid: string, p: Pair, notetypes: map<int, NotetypeRow>, wallClock: nat): Option<NoteRow>
    requires WellTyped(p) && p.server.Some?
  {
    var count := LocalCount(p, notetypes);
    if count.None? then None
    else
      var server := p.server.value;
      var text := rewrite(Text(Padded(server.content.fields, count.value), server.content.tags));
      var mod := SourceModifiedSeconds(ServerStamps(server.modifiedAt, server.clientModifiedAt), wallClock);
      var mid := if p.local.Some? then p.local.value.mid else server.content.notetypeId;
      Some(NoteRow(guid, mid, mod, text.fields, text.tags))
  }

  function Published(n: NoteRow, pushedAt: int): Record {
    Record(NoteContent(n.mid, n.fields, n.tags), pushedAt, UtcWriteTime(pushedAt, n.mod * SECOND))
  }

  /** One guid after a pass with no other writer. */
  function Outcome(nfc: string -> string, rewrite: Text -> Text, guid: string, p: Pair, e: Env, notetypes: map<int, NotetypeRow>): Pair
    requires WellTyped(p)
  {
    match PlanOf(nfc, p, e)
    case Push => p.(server := Some(Published(p.local.value, e.pushedAt)))
    case Relay => p.(server := Some(Published(p.local.value, e.pushedAt)))
    case Pull => p.(local := Applied(rewrite, guid, p, notetypes, e.wallClock))
    case Skip => p
    case Conflict => p
  }

  // A pass limited to some decks plans on what it sees of both sides, and acts on what is there.

  /** `v` is what a pass sees of `p`: each side as it is, or not at all. */
  predicate Sees(v: Pair, p: Pair) {
    v.local in {None, p.local} && v.server in {None, p.server}
  }

  /** A note pushed as new although the server holds another text of it, out of the pass's sight. */
  predicate Refused(nfc: string -> string, p: Pair, v: Pair, e: Env)
    requires WellTyped(p) && WellTyped(v) && Sees(v, p)
  {
    && PlanOf(nfc, v, e) == Push && v.server.None? && p.server.Some?
    && TextOf(p.local.value) != ServerText(p.server.value)
  }

  /** One guid after a pass with no other writer that saw `v` of it. */
  function OutcomeIn(nfc: string -> string, rewrite: Text -> Text, guid: string, p: Pair, v: Pair, e: Env, notetypes: map<int, NotetypeRow>): Pair
    requires WellTyped(p) && WellTyped(v) && Sees(v, p)
  {
    if Refused(nfc, p, v, e) then p
    else
      match PlanOf(nfc, v, e)
      case Push => p.(server := Some(Published(p.local.value, e.pushedAt)))
      case Relay => p.(server := Some(Published(p.local.value, e.pushedAt)))
      case Pull => p.(local := Applied(rewrite, guid, p, notetypes, e.wallClock))
      case Skip => p
      case Conflict => p
  }

  /** A pass that sees everything is the plain pass, and nothing is refused. */
  lemma SeeingAllIsPlain(nfc: string -> string, rewrite: Text -> Text, guid: string, p: Pair, e: Env, notetypes: map<int, NotetypeRow>)
    requires WellTyped(p)
    ensures !Refused(nfc, p, p, e) && OutcomeIn(nfc, rewrite, guid, p, p, e, notetypes) == Outcome(nfc, rewrite, guid, p, e, notetypes)
  {
  }

  /** A refusal changes neither side, and repeats for as long as the pass sees the same. */
  lemma RefusedStaysRefused(nfc: string -> string, rewrite: Text -> Text, guid: string, p: Pair, v: Pair, e: Env, later: Env, notetypes: map<int, NotetypeRow>)
    requires WellTyped(p) && WellTyped(v) && Sees(v, p) && Refused(nfc, p, v, e)
    ensures OutcomeIn(nfc, rewrite, guid, p, v, e, notetypes) == p && Refused(nfc, p, v, later)
  {
  }

  // ------------------------------------------------------------------ fixpoint --

  /** What every server row satisfies when a client plans at `now`. */
  predicate Good(p: Pair, now: int) {
    WellTyped(p) && SECOND <= now && (p.server.Some? ==>
      && SECOND <= p.server.value.modifiedAt <= now
      && ClockBounded(p.server.value.modifiedAt, p.server.value.clientModifiedAt))
  }

  /** A pulled note can be stored whole. */
  predicate Fits(p: Pair, notetypes: map<int, NotetypeRow>)
    requires WellTyped(p)
  {
    p.server.Some? ==> LocalCount(p, notetypes) == Some(|p.server.value.content.fields|)
  }

  /** Both sides hold the note, byte-identical or about to be relayed. */
  ghost predicate Reconciled(nfc: string -> string, p: Pair, from: int) {
    && WellTyped(p) && p.local.Some? && p.server.Some?
    && (InSync(p) || (CanonicallyEquivalent(nfc, TextOf(p.local.value), ServerText(p.server.value))
          && Settled(p.local.value.mod, p.server.value.modifiedAt, p.server.value.clientModifiedAt, from)))
  }

  lemma PullReconciles(nfc: string -> string, rewrite: Text -> Text, guid: string, p: Pair, e: Env, notetypes: map<int, NotetypeRow>)
    requires Faithful(nfc, rewrite) && Good(p, e.now) && Fits(p, notetypes) && p.server.Some?
    ensures Reconciled(nfc, p.(local := Applied(rewrite, guid, p, notetypes, e.wallClock)), e.now)
  {
    var server := p.server.value;
    PullSettlesIffBounded(server.modifiedAt, server.clientModifiedAt, e.now, e.wallClock);
    var text := ServerText(server);
    assert CanonicallyEquivalent(nfc, rewrite(text), text);
  }

  lemma PassReconciles(nfc: string -> string, rewrite: Text -> Text, guid: string, p: Pair, e: Env, notetypes: map<int, NotetypeRow>)
    requires Faithful(nfc, rewrite) && Good(p, e.now) && e.now <= e.pushedAt && Fits(p, notetypes)
    requires PlanOf(nfc, p, e) != Conflict
    ensures var p' := Outcome(nfc, rewrite, guid, p, e, notetypes);
      Good(p', e.pushedAt) && (p' == Pair(None, None) || Reconciled(nfc, p', e.now))
  {
    if PlanOf(nfc, p, e) == Pull {
      PullReconciles(nfc, rewrite, guid, p, e, notetypes);
    }
  }

  lemma ReconciledPassSyncs(nfc: string -> string, rewrite: Text -> Text, guid: string, p: Pair, e: Env, notetypes: map<int, NotetypeRow>, from: int)
    requires Reconciled(nfc, p, from) && from <= e.now
    ensures PlanOf(nfc, p, e) in {Skip, Relay}
    ensures WellTyped(Outcome(nfc, rewrite, guid, p, e, notetypes)) && InSync(Outcome(nfc, rewrite, guid, p, e, notetypes))
  {
  }

  /**
   * The note pass reaches a fixpoint.  If one pass finds no conflict, then with no
   * other writer the second finds none either, after it both sides are equal, and
   * every later pass skips the note; with and without newest-wins.
   */
  lemma NotesReachFixpoint(nfc: string -> string, rewrite: Text -> Text, guid: string, p: Pair,
                           e1: Env, e2: Env, e3: Env, notetypes: map<int, NotetypeRow>)
    requires Faithful(nfc, rewrite) && Good(p, e1.now) && Fits(p, notetypes)
    requires e1.now <= e1.pushedAt <= e2.now <= e2.pushedAt
    requires PlanOf(nfc, p, e1) != Conflict
    ensures var p1 := Outcome(nfc, rewrite, guid, p, e1, notetypes);
      && WellTyped(p1) && PlanOf(nfc, p1, e2) in {Skip, Relay}
      && var p2 := Outcome(nfc, rewrite, guid, p1, e2, notetypes);
      && WellTyped(p2) && (p2 == Pair(None, None) || InSync(p2))
      && PlanOf(nfc, p2, e3) == Skip
  {
    PassReconciles(nfc, rewrite, guid, p, e1, notetypes);
    var p1 := Outcome(nfc, rewrite, guid, p, e1, notetypes);
    if p1.local.Some? || p1.server.Some? {
      ReconciledPassSyncs(nfc, rewrite, guid, p1, e2, notetypes, e1.now);
    }
  }

  /**
   * Two conflict-free passes settle a note the collection holds if the server does,
   * whatever its field counts: a note that was resized would have been a conflict.
   */
  lemma TwoPassesSettleNote(nfc: string -> string, rewrite: Text -> Text, guid: string, p: Pair, e1: Env, e2: Env, e3: Env,
                            notetypes: map<int, NotetypeRow>, notetypes2: map<int, NotetypeRow>)
    requires Faithful(nfc, rewrite) && Good(p, e1.now) && (p.server.Some? ==> p.local.Some?)
    requires e1.now <= e1.pushedAt <= e2.now <= e2.pushedAt
    requires PlanOf(nfc, p, e1) != Conflict
    requires var p1 := Outcome(nfc, rewrite, guid, p, e1, notetypes); WellTyped(p1) && PlanOf(nfc, p1, e2) != Conflict
    ensures var p1 := Outcome(nfc, rewrite, guid, p, e1, notetypes);
      var p2 := Outcome(nfc, rewrite, guid, p1, e2, notetypes2);
      && WellTyped(p1) && WellTyped(p2) && PlanOf(nfc, p2, e3) == Skip
      && (p1.local.Some? <==> p.local.Some?) && (p2.local.Some? <==> p.local.Some?) && PlanOf(nfc, p1, e2) in {Skip, Relay}
  {
    var p1 := Outcome(nfc, rewrite, guid, p, e1, notetypes);
    match PlanOf(nfc, p, e1)
    case Push =>
    case Skip =>
    case Relay =>
    case Pull =>
      PulledNoteConflictsIffResized(nfc, rewrite, guid, p, e1, e2, notetypes);
      PullReconciles(nfc, rewrite, guid, p, e1, notetypes);
      ReconciledPassSyncs(nfc, rewrite, guid, p1, e2, notetypes2, e1.now);
  }

  /**
   * The field counts matter exactly: a note that was pulled becomes a conflict on
   * the next pass if and only if it had to be padded or truncated.
   */
  lemma PulledNoteConflictsIffResized(nfc: string -> string, rewrite: Text -> Text, guid: string, p: Pair,
                                      e1: Env, e2: Env, notetypes: map<int, NotetypeRow>)
    requires Faithful(nfc, rewrite) && Good(p, e1.now) && e1.now <= e1.pushedAt <= e2.now
    requires PlanOf(nfc, p, e1) == Pull && LocalCount(p, notetypes).Some?
    ensures PlanOf(nfc, Outcome(nfc, rewrite, guid, p, e1, notetypes), e2) == Conflict
       <==> LocalCount(p, notetypes).value != |p.server.value.content.fields|
  {
    var server, count := p.server.value, LocalCount(p, notetypes).value;
    var p1 := Outcome(nfc, rewrite, guid, p, e1, notetypes);
    PullSettlesIffBounded(server.modifiedAt, server.clientModifiedAt, e1.now, e1.wallClock);
    var given := Text(Padded(server.content.fields, count), server.content.tags);
    assert CanonicallyEquivalent(nfc, rewrite(given), given);
    assert |Normalized(nfc, rewrite(given).fields)| == count;
    if count == |server.content.fields| {
      PullReconciles(nfc, rewrite, guid, p, e1, notetypes);
      ReconciledPassSyncs(nfc, rewrite, guid, p1, e2, notetypes, e1.now);
    } else {
      assert |Normalized(nfc, server.content.fields)| != count;
    }
  }

  /** Text already in Anki's own form is stored as it is: other clients never relay again. */
  lemma CanonicalPullIsExact(rewrite: Text -> Text, guid: string, p: Pair, notetypes: map<int, NotetypeRow>, wallClock: nat)
    requires WellTyped(p) && p.server.Some? && Fits(p, notetypes)
    requires rewrite(ServerText(p.server.value)) == ServerText(p.server.value)
    ensures InSync(p.(local := Applied(rewrite, guid, p, notetypes, wallClock)))
  {
  }

  // ------------------------------------------------------------- local lookups --

  predicate HasGuid(notes: map<int, NoteRow>, nid: int, guid: string) {
    nid in notes && notes[nid].guid == guid
  }

  /** Guids identify notes; blank ones are no identity and never synchronised. */
  ghost predicate DistinctGuids(notes: map<int, NoteRow>) {
    forall n1, n2 :: n1 in notes && n2 in notes && notes[n1].guid == notes[n2].guid && notes[n1].guid != "" ==> n1 == n2
  }

  ghost function NoteNamed(notes: map<int, NoteRow>, guid: string): Option<NoteRow> {
    if exists nid :: HasGuid(notes, nid, guid) then
      var nid :| HasGuid(notes, nid, guid);
      Some(notes[nid])
    else None
  }

  lemma NamedNote(notes: map<int, NoteRow>, nid: int, guid: string)
    requires DistinctGuids(notes) && HasGuid(notes, nid, guid) && guid != ""
    ensures NoteNamed(notes, guid) == Some(notes[nid])
  {
  }

  ghost function PairOf(notes: map<int, NoteRow>, records: map<GuardedRef, Record>, guid: string): Pair {
    Pair(NoteNamed(notes, guid), if NoteRef(guid) in records then Some(records[NoteRef(guid)]) else None)
  }

  ghost predicate NotesWellTyped(records: map<GuardedRef, Record>) {
    forall guid :: NoteRef(guid) in records ==> IsNote(records[NoteRef(guid)])
  }

  /** What a pass over the decks of `scope` sees when the manifest lists `listed`. */
  ghost function ViewOf(l: Local, scope: set<string>, records: map<GuardedRef, Record>, listed: set<GuardedRef>, guid: string): Pair {
    PairOf(ScopedNotes(l, scope), Listed(records, listed), guid)
  }

  function Listed(records: map<GuardedRef, Record>, listed: set<GuardedRef>): map<GuardedRef, Record> {
    map r | r in records && r in listed :: records[r]
  }

  lemma ShownNote(l: Local, scope: set<string>, guid: string)
    requires DistinctGuids(l.notes) && guid != ""
    ensures DistinctGuids(ScopedNotes(l, scope))
    ensures NoteNamed(ScopedNotes(l, scope), guid) in {None, NoteNamed(l.notes, guid)}
  {
    var shown := ScopedNotes(l, scope);
    if n :| HasGuid(shown, n, guid) {
      NamedNote(shown, n, guid);
      NamedNote(l.notes, n, guid);
    }
  }

  lemma ViewIsSeen(l: Local, scope: set<string>, records: map<GuardedRef, Record>, listed: set<GuardedRef>, guid: string)
    requires DistinctGuids(l.notes) && guid != "" && NotesWellTyped(records)
    ensures var p, v := PairOf(l.notes, records, guid), ViewOf(l, scope, records, listed, guid);
      Sees(v, p) && WellTyped(p) && WellTyped(v)
  {
    ShownNote(l, scope, guid);
  }

  /** Without a selection and with a full manifest a pass sees everything. */
  lemma WholeView(l: Local, records: map<GuardedRef, Record>, listed: set<GuardedRef>, guid: string)
    requires NoteRef(guid) in records ==> NoteRef(guid) in listed
    ensures ViewOf(l, {}, records, listed, guid) == PairOf(l.notes, records, guid)
  {
    NoSelection(l);
  }

  /** SELECT id FROM notes WHERE guid = ?. */
  method FindNote(notes: map<int, NoteRow>, guid: string) returns (nid: Option<int>)
    requires DistinctGuids(notes) && guid != ""
    ensures nid.None? ==> NoteNamed(notes, guid) == None
    ensures forall n :: HasGuid(notes, n, guid) ==> nid == Some(n)
    ensures nid.Some? ==> HasGuid(notes, nid.value, guid) && NoteNamed(notes, guid) == Some(notes[nid.value])
  {
    var rest := notes.Keys;
    while rest != {}
      invariant rest <= notes.Keys
      invariant forall n :: HasGuid(notes, n, guid) ==> n in rest
      decreases rest
    {
      var n := Pick(rest);
      if notes[n].guid == guid {
        NamedNote(notes, n, guid);
        return Some(n);
      }
      rest := rest - {n};
    }
    nid := None;
  }

  datatype LocalEntry = LocalEntry(digest: Digest, stamps: Stamps)

  function LocalEntryOf(n: NoteRow): LocalEntry {
    LocalEntry(NoteDigest(n.fields, n.tags), LocalStamps(n.mod))
  }

  method NoteManifest(notes: map<int, NoteRow>) returns (m: map<string, LocalEntry>)
    requires DistinctGuids(notes)
    ensures forall guid :: guid in m <==> guid != "" && NoteNamed(notes, guid).Some?
    ensures forall guid :: guid in m ==> m[guid] == LocalEntryOf(NoteNamed(notes, guid).value)
  {
    m := map[];
    var rest := notes.Keys;
    while rest != {}
      invariant rest <= notes.Keys
      invariant forall guid :: guid in m ==> guid != "" && NoteNamed(notes, guid).Some?
                                             && m[guid] == LocalEntryOf(NoteNamed(notes, guid).value)
      invariant forall n :: n in notes && n !in rest && notes[n].guid != "" ==> notes[n].guid in m
      decreases rest
    {
      var n := Pick(rest);
      rest := rest - {n};
      var note := notes[n];
      if note.guid != "" {
        NamedNote(notes, n, note.guid);
        m := m[note.guid := LocalEntryOf(note)];
      }
    }
    forall guid | guid != "" && NoteNamed(notes, guid).Some?
      ensures guid in m
    {
      var nid :| HasGuid(notes, nid, guid);
    }
  }

  method UnusedId(used: set<int>) returns (id: int)
    ensures id !in used && id > 0
  {
    id := 1;
    var rest := used;
    while rest != {}
      invariant rest <= used && id > 0
      invariant forall x :: x in used && x !in rest ==> x < id
      decreases rest
    {
      var x := Pick(rest);
      rest := rest - {x};
      if x >= id { id := x + 1; }
    }
  }

  /** Rows stay under their ids and guids, those without a guid as they are; others may have been added. */
  ghost predicate KeepsIds(was: map<int, NoteRow>, now: map<int, NoteRow>) {
    && (forall n :: n in was ==> n in now && now[n].guid == was[n].guid && (was[n].guid == "" ==> now[n] == was[n]))
    && (forall n :: n in now && now[n].guid == "" ==> n in was)
  }

  /** apply_note: update the note in place, or create it under its guid. */
  method ApplyNote(col: Collection, guid: string, r: Record, rewrite: Text -> Text, wallClock: nat) returns (ok: bool)
    requires guid != "" && IsNote(r) && DistinctGuids(col.notes)
    modifies col`notes
    ensures DistinctGuids(col.notes) && KeepsIds(old(col.notes), col.notes)
    ensures NoteNamed(col.notes, guid)
         == Applied(rewrite, guid, Pair(NoteNamed(old(col.notes), guid), Some(r)), col.notetypes, wallClock)
    ensures forall g :: g != guid && g != "" ==> NoteNamed(col.notes, g) == NoteNamed(old(col.notes), g)
    ensures ok <==> NoteNamed(col.notes, guid).Some?
  {
    ghost var was := col.notes;
    var mod := SourceModifiedSeconds(ServerStamps(r.modifiedAt, r.clientModifiedAt), wallClock);
    var nid := FindNote(col.notes, guid);
    assert forall n :: n in was && was[n].guid == guid ==> HasGuid(was, n, guid) && nid == Some(n);
    var id;
    if nid.Some? {
      id := nid.value;
      var note := col.notes[id];
      var text := rewrite(Text(Padded(r.content.fields, |note.fields|), r.content.tags));
      col.notes := col.notes[id := note.(fields := text.fields, tags := text.tags, mod := mod)];
    } else {
      var mid := r.content.notetypeId;
      if mid == 0 || mid !in col.notetypes {
        return false;
      }
      id := UnusedId(col.notes.Keys);
      var text := rewrite(Text(Padded(r.content.fields, col.notetypes[mid].fieldCount), r.content.tags));
      col.notes := col.notes[id := NoteRow(guid, mid, mod, text.fields, text.tags)];
    }
    NamedNote(col.notes, id, guid);
    OtherNotesStay(was, col.notes, id, guid);
    ok := true;
  }

  lemma OtherNotesStay(was: map<int, NoteRow>, notes: map<int, NoteRow>, id: int, guid: string)
    requires DistinctGuids(was) && DistinctGuids(notes) && id in notes && notes == was[id := notes[id]]
    requires notes[id].guid == guid && (id in was ==> was[id].guid == guid)
    ensures forall g :: g != guid && g != "" ==> NoteNamed(notes, g) == NoteNamed(was, g)
  {
    forall g | g != guid && g != ""
      ensures NoteNamed(notes, g) == NoteNamed(was, g)
    {
      forall n ensures HasGuid(notes, n, g) <==> HasGuid(was, n, g) { }
      if n :| HasGuid(notes, n, g) {
        NamedNote(notes, n, g);
        NamedNote(was, n, g);
      }
    }
  }

  // --------------------------------------------------------------- the pass itself --

  const BATCH_SIZE := 3000

  datatype Triage = InSyncOrAbsent | ToPush(base: Digest) | ToPull | Ambiguous(base: Digest)

  /** What the two manifest entries of a guid say, before any text is compared. */
  function TriageOf(local: Option<LocalEntry>, server: Option<Entry>, e: Env): Triage {
    if local.None? && server.None? then InSyncOrAbsent
    else if server.None? then ToPush(NoDigest)
    else if local.None? then ToPull
    else if local.value.digest == server.value.digest then InSyncOrAbsent
    else
      var winner :=
        if e.newestWins
        then NewestSide(local.value.stamps, ServerStamps(server.value.modifiedAt, server.value.clientModifiedAt), Some(e.now))
        else None;
      match winner
      case Some(Server) => ToPull
      case Some(Local) => ToPush(server.value.digest)
      case None => Ambiguous(server.value.digest)
  }

  ghost predicate Agrees(t: Triage, plan: Plan, p: Pair) {
    match t
    case InSyncOrAbsent => plan == Skip
    case ToPull => plan == Pull
    case ToPush(base) => plan == Push && base == (if p.server.Some? then DigestOf(p.server.value.content) else NoDigest)
    case Ambiguous(base) => plan in {Relay, Conflict} && p.server.Some? && p.local.Some? && base == DigestOf(p.server.value.content)
  }

  lemma TriageFollowsPlan(nfc: string -> string, p: Pair, e: Env)
    requires WellTyped(p)
    ensures Agrees(TriageOf(if p.local.Some? then Some(LocalEntryOf(p.local.value)) else None,
                            if p.server.Some? then Some(EntryOf(p.server.value)) else None, e), PlanOf(nfc, p, e), p)
  {
  }

  datatype Item = Item(guid: string, base: Digest)

  ghost predicate DistinctItems(items: seq<Item>) {
    forall i, j :: 0 <= i < j < |items| ==> items[i].guid != items[j].guid
  }

  ghost predicate DistinctNames(names: seq<string>) {
    forall i, j :: 0 <= i < j < |names| ==> names[i] != names[j]
  }

  function LocalLookup(local: map<string, LocalEntry>, guid: string): Option<LocalEntry> {
    if guid in local then Some(local[guid]) else None
  }

  function RemoteLookup(remote: map<GuardedRef, Entry>, guid: string): Option<Entry> {
    if NoteRef(guid) in remote then Some(remote[NoteRef(guid)]) else None
  }

  function TriageAt(local: map<string, LocalEntry>, remote: map<GuardedRef, Entry>, e: Env, guid: string): Triage {
    TriageOf(LocalLookup(local, guid), RemoteLookup(remote, guid), e)
  }

  /** One pass over all guids of either manifest, in any order. */
  lemma NothingListed()
    ensures DistinctItems([]) && DistinctNames([])
  {
  }

  lemma NewItem(items: seq<Item>, x: Item)
    requires DistinctItems(items) && forall y :: y in items ==> y.guid != x.guid
    ensures DistinctItems(items + [x])
  {
    assert forall i :: 0 <= i < |items| ==> items[i] in items;
  }

  lemma NewName(names: seq<string>, g: string)
    requires DistinctNames(names) && g !in names
    ensures DistinctNames(names + [g])
  {
    assert forall i :: 0 <= i < |names| ==> names[i] in names;
  }

  method PlanNotes(local: map<string, LocalEntry>, remote: map<GuardedRef, Entry>, e: Env)
    returns (pushes: seq<Item>, pulls: seq<string>, ambiguous: seq<Item>)
    ensures forall x :: x in pushes <==> TriageAt(local, remote, e, x.guid) == ToPush(x.base)
    ensures forall g :: g in pulls <==> TriageAt(local, remote, e, g) == ToPull
    ensures forall x :: x in ambiguous <==> TriageAt(local, remote, e, x.guid) == Ambiguous(x.base)
    ensures DistinctItems(pushes) && DistinctNames(pulls) && DistinctItems(ambiguous)
  {
    pushes, pulls, ambiguous := [], [], [];
    var guids := local.Keys + (set r | r in remote && r.NoteRef? :: r.guid);
    forall g
      ensures g !in guids ==> TriageAt(local, remote, e, g) == InSyncOrAbsent
    {
      assert NoteRef(g) in remote ==> NoteRef(g).guid in guids;
    }
    var rest := guids;
    NothingListed();
    hide TriageAt;
    hide DistinctItems;
    hide DistinctNames;
    while rest != {}
      invariant rest <= guids
      invariant forall x :: x in pushes <==> TriageAt(local, remote, e, x.guid) == ToPush(x.base) && x.guid !in rest
      invariant forall g :: g in pulls <==> TriageAt(local, remote, e, g) == ToPull && g !in rest
      invariant forall x :: x in ambiguous <==> TriageAt(local, remote, e, x.guid) == Ambiguous(x.base) && x.guid !in rest
      invariant DistinctItems(pushes) && DistinctNames(pulls) && DistinctItems(ambiguous)
      decreases rest
    {
      var guid := Pick(rest);
      NewName(pulls, guid);
      rest := rest - {guid};
      match TriageAt(local, remote, e, guid)
      case InSyncOrAbsent =>
      case ToPull => pulls := pulls + [guid];
      case ToPush(base) =>
        NewItem(pushes, Item(guid, base));
        pushes := pushes + [Item(guid, base)];
      case Ambiguous(base) =>
        NewItem(ambiguous, Item(guid, base));
        ambiguous := ambiguous + [Item(guid, base)];
    }
  }

  /** The mismatches no clock decides: equivalent text is relayed, the rest is a conflict. */
  method Hydrate(col: Collection, server: Handler, ambiguous: seq<Item>, nfc: string -> string)
    returns (relays: seq<Item>, conflicts: seq<string>)
    requires DistinctGuids(col.notes) && NotesWellTyped(server.records) && DistinctItems(ambiguous)
    requires forall x <- ambiguous ::
      x.guid != "" && NoteNamed(col.notes, x.guid).Some? && NoteRef(x.guid) in server.records
    ensures DistinctItems(relays)
    ensures forall x :: x in relays <==> x in ambiguous && Equal(nfc, PairOf(col.notes, server.records, x.guid))
    ensures forall g :: g in conflicts <==> exists x <- ambiguous ::
      x.guid == g && !Equal(nfc, PairOf(col.notes, server.records, x.guid))
  {
    relays, conflicts := [], [];
    for i := 0 to |ambiguous|
      invariant DistinctItems(relays)
      invariant forall x :: x in relays <==> x in ambiguous[..i] && Equal(nfc, PairOf(col.notes, server.records, x.guid))
      invariant forall g :: g in conflicts <==> exists x <- ambiguous[..i] ::
        x.guid == g && !Equal(nfc, PairOf(col.notes, server.records, x.guid))
    {
      var x := ambiguous[i];
      assert x in ambiguous;
      assert ambiguous[..i + 1] == ambiguous[..i] + [x];
      forall j | 0 <= j < |relays| ensures relays[j].guid != x.guid { assert relays[j] in relays; }
      var nid := FindNote(col.notes, x.guid);
      var note, record := col.notes[nid.value], server.records[NoteRef(x.guid)];
      if CanonicallyEquivalent(nfc, TextOf(note), ServerText(record)) {
        relays := relays + [x];
      } else {
        conflicts := conflicts + [x.guid];
      }
    }
    assert ambiguous[..|ambiguous|] == ambiguous;
  }

  ghost predicate Equal(nfc: string -> string, p: Pair) {
    && WellTyped(p) && p.local.Some? && p.server.Some?
    && CanonicallyEquivalent(nfc, TextOf(p.local.value), ServerText(p.server.value))
  }

  method PullNotes(col: Collection, server: Handler, pulls: seq<string>, rewrite: Text -> Text, wallClock: nat)
    requires DistinctGuids(col.notes) && NotesWellTyped(server.records) && DistinctNames(pulls)
    requires forall g <- pulls :: NoteRef(g) in server.records
    modifies col`notes
    ensures DistinctGuids(col.notes) && KeepsIds(old(col.notes), col.notes)
    ensures forall g :: g != "" && g in pulls ==>
      NoteNamed(col.notes, g) == Applied(rewrite, g, PairOf(old(col.notes), server.records, g), col.notetypes, wallClock)
    ensures forall g :: g != "" && g !in pulls ==> NoteNamed(col.notes, g) == NoteNamed(old(col.notes), g)
  {
    ghost var was := col.notes;
    for i := 0 to |pulls|
      invariant DistinctGuids(col.notes) && KeepsIds(was, col.notes)
      invariant forall g :: g != "" && g in pulls[..i] ==>
        NoteNamed(col.notes, g) == Applied(rewrite, g, PairOf(was, server.records, g), col.notetypes, wallClock)
      invariant forall g :: g != "" && g !in pulls[..i] ==> NoteNamed(col.notes, g) == NoteNamed(was, g)
    {
      var guid := pulls[i];
      assert guid in pulls;
      assert pulls[..i + 1] == pulls[..i] + [guid];
      // A record without a guid is refused and counted as skipped.
      if guid != "" {
        var _ := ApplyNote(col, guid, server.records[NoteRef(guid)], rewrite, wallClock);
      }
    }
    assert pulls[..|pulls|] == pulls;
  }

  function PutOf(n: NoteRow, x: Item): Put {
    Put(NoteRef(x.guid), NoteContent(n.mid, n.fields, n.tags), x.base, n.mod * SECOND)
  }

  /** The upload of each item, read from the collection. */
  method Payload(notes: map<int, NoteRow>, items: seq<Item>) returns (ps: seq<Put>)
    requires DistinctGuids(notes) && DistinctItems(items)
    requires forall x <- items :: x.guid != "" && NoteNamed(notes, x.guid).Some?
    ensures |ps| == |items| && DistinctRefs(ps)
    ensures forall i :: 0 <= i < |items| ==> NoteNamed(notes, items[i].guid).Some?
    ensures forall i :: 0 <= i < |items| ==> ps[i] == PutOf(NoteNamed(notes, items[i].guid).value, items[i])
  {
    ps := [];
    for i := 0 to |items|
      invariant |ps| == i
      invariant forall j :: 0 <= j < i ==> NoteNamed(notes, items[j].guid).Some?
      invariant forall j :: 0 <= j < i ==> ps[j] == PutOf(NoteNamed(notes, items[j].guid).value, items[j])
    {
      assert items[i] in items;
      var nid := FindNote(notes, items[i].guid);
      ps := ps + [PutOf(notes[nid.value], items[i])];
    }
  }

  ghost predicate Has(items: seq<Item>, guid: string) {
    exists x <- items :: x.guid == guid
  }

  /** The stored row is at neither the base of the item nor its text. */
  ghost predicate Stale(notes: map<int, NoteRow>, was: map<GuardedRef, Record>, x: Item) {
    NoteNamed(notes, x.guid).Some? && Unseen(was, PutOf(NoteNamed(notes, x.guid).value, x))
  }

  ghost predicate SomeStale(notes: map<int, NoteRow>, was: map<GuardedRef, Record>, items: seq<Item>, guid: string) {
    exists x <- items :: x.guid == guid && Stale(notes, was, x)
  }

  ghost predicate Reports(refused: seq<Put>, guid: string) {
    exists p <- refused :: p.ref.NoteRef? && p.ref.guid == guid
  }

  /** The notes of a list stand on the server as the collection has them, except stale ones; nothing else moved. */
  ghost predicate PushedTo(notes: map<int, NoteRow>, was: map<GuardedRef, Record>, items: seq<Item>, now: int,
                           records: map<GuardedRef, Record>) {
    && (forall x <- items :: NoteNamed(notes, x.guid).Some? && NoteRef(x.guid) in records
          && records[NoteRef(x.guid)]
             == if Stale(notes, was, x) then was[NoteRef(x.guid)] else Published(NoteNamed(notes, x.guid).value, now))
    && (forall r: GuardedRef :: (r.NoteRef? ==> !Has(items, r.guid)) ==>
          (r in records <==> r in was) && (r in was ==> records[r] == was[r]))
  }

  /** A request that writes guarded resources leaves the other tables alone. */
  ghost predicate OnlyRecords(was: Db, now: Db) {
    now == was.(records := now.records, tombstones := now.tombstones)
  }

  lemma {:induction false} PutsWriteRecords(db: Db, ps: seq<Put>, now: int)
    ensures OnlyRecords(db, Run(db, PutEvents(ps, false, now)))
  {
    if |ps| > 0 {
      var h := PutEvents(ps, false, now);
      assert h[..|ps| - 1] == PutEvents(ps[..|ps| - 1], false, now);
      PutsWriteRecords(db, ps[..|ps| - 1], now);
      ApplyPut(Run(db, h[..|ps| - 1]), ps[|ps| - 1], false, now);
      hide Apply;
    }
  }

  /** What a batch of uploads does, item by item. */
  lemma PutsPush(db: Db, notes: map<int, NoteRow>, items: seq<Item>, ps: seq<Put>, now: int)
    requires DistinctItems(items) && |ps| == |items| && DistinctRefs(ps)
    requires forall i :: 0 <= i < |items| ==> NoteNamed(notes, items[i].guid).Some?
    requires forall i :: 0 <= i < |items| ==> ps[i] == PutOf(NoteNamed(notes, items[i].guid).value, items[i])
    ensures PushedTo(notes, db.records, items, now, Run(db, PutEvents(ps, false, now)).records)
    ensures forall p <- Conflicts(db, ps, false, now) :: p.ref.NoteRef?
    ensures forall g :: Reports(Conflicts(db, ps, false, now), g) <==> SomeStale(notes, db.records, items, g)
  {
    UnforcedBatch(db, ps, now);
    PutsTouchOnlyTheirRefs(db.records, ps, now);
    forall i | 0 <= i < |items|
      ensures PutDone(db.records, ps, now, notes, items[i], ps[i])
    {
      assert ps[i] in ps;
      ItemOutcome(db.records, ps, now, ps[i]);
    }
    hide *;
    RowsPush(db.records, notes, items, ps, now);
    RefusedGuids(items, ps, Reported(db.records, ps, now), notes, db.records);
  }

  /** One upload is stored, or stale and reported. */
  ghost predicate PutDone(rows: map<GuardedRef, Record>, ps: seq<Put>, now: int, notes: map<int, NoteRow>, x: Item, p: Put) {
    && p in ps && p.ref == NoteRef(x.guid)
    && (p in Reported(rows, ps, now) <==> Stale(notes, rows, x)) && (Stale(notes, rows, x) ==> NoteRef(x.guid) in rows)
    && p.ref in PutRows(rows, ps, now) && NoteNamed(notes, x.guid).Some?
    && PutRows(rows, ps, now)[p.ref] == if Stale(notes, rows, x) then rows[p.ref] else Published(NoteNamed(notes, x.guid).value, now)
  }

  lemma RowsPush(rows: map<GuardedRef, Record>, notes: map<int, NoteRow>, items: seq<Item>, ps: seq<Put>, now: int)
    requires |ps| == |items| && forall i :: 0 <= i < |items| ==> PutDone(rows, ps, now, notes, items[i], ps[i])
    requires forall r :: r in rows ==> r in PutRows(rows, ps, now)
    requires forall r: GuardedRef :: (forall p <- ps :: p.ref != r) && r in PutRows(rows, ps, now) ==>
      r in rows && PutRows(rows, ps, now)[r] == rows[r]
    ensures PushedTo(notes, rows, items, now, PutRows(rows, ps, now))
  {
    hide Stale;
    hide PutRows;
    hide Reported;
    hide Published;
    forall r: GuardedRef | r.NoteRef? ==> !Has(items, r.guid)
      ensures forall p <- ps :: p.ref != r
    {
      forall p | p in ps ensures p.ref != r {
        var i :| 0 <= i < |ps| && ps[i] == p;
        assert PutDone(rows, ps, now, notes, items[i], ps[i]) && items[i] in items;
      }
    }
    forall x | x in items
      ensures exists i :: 0 <= i < |items| && items[i] == x && PutDone(rows, ps, now, notes, items[i], ps[i])
    {
      var i :| 0 <= i < |items| && items[i] == x;
      assert PutDone(rows, ps, now, notes, items[i], ps[i]);
    }
  }

  lemma RefusedGuids(items: seq<Item>, ps: seq<Put>, refused: seq<Put>, notes: map<int, NoteRow>, was: map<GuardedRef, Record>)
    requires |ps| == |items| && (forall p <- refused :: p in ps)
    requires forall i :: 0 <= i < |items| ==> ps[i].ref == NoteRef(items[i].guid)
    requires forall i :: 0 <= i < |items| ==> (ps[i] in refused <==> Stale(notes, was, items[i]))
    ensures forall p <- refused :: p.ref.NoteRef?
    ensures forall g :: Reports(refused, g) <==> SomeStale(notes, was, items, g)
  {
    hide Stale;
    forall p | p in refused ensures exists i :: 0 <= i < |items| && ps[i] == p { }
    forall g
      ensures Reports(refused, g) <==> SomeStale(notes, was, items, g)
    {
      if p :| p in refused && p.ref.NoteRef? && p.ref.guid == g {
        var i :| 0 <= i < |items| && ps[i] == p;
        assert items[i] in items && items[i].guid == g;
      }
      if x :| x in items && x.guid == g && Stale(notes, was, x) {
        var i :| 0 <= i < |items| && items[i] == x;
        assert ps[i] in refused && ps[i].ref.guid == g;
      }
    }
  }

  method PushBatch(col: Collection, server: Handler, items: seq<Item>, now: int) returns (conflicts: seq<string>)
    requires now != GO_ZERO_TIME && DistinctGuids(col.notes) && DistinctItems(items)
    requires forall x <- items :: x.guid != "" && NoteNamed(col.notes, x.guid).Some?
    modifies server
    ensures PushedTo(col.notes, old(server.records), items, now, server.records)
    ensures OnlyRecords(old(server.State()), server.State())
    ensures forall g :: g in conflicts <==> SomeStale(col.notes, old(server.records), items, g)
  {
    hide Run;
    hide Conflicts;
    hide PushedTo;
    hide Stale;
    ghost var db := server.State();
    var ps := Payload(col.notes, items);
    PutsWriteRecords(db, ps, now);
    PutsPush(db, col.notes, items, ps, now);
    var resp := PushPuts(server, ps, now);
    var refused := resp.notes.conflicts;
    assert forall i :: 0 <= i < |refused| ==> refused[i] in refused;
    conflicts := seq(|refused|, i requires 0 <= i < |refused| && refused[i].ref.NoteRef? => refused[i].ref.guid);
    forall g
      ensures g in conflicts <==> Reports(refused, g)
    {
      if g in conflicts {
        var i :| 0 <= i < |conflicts| && conflicts[i] == g;
        assert refused[i] in refused;
      }
      if p :| p in refused && p.ref.NoteRef? && p.ref.guid == g {
        var i :| 0 <= i < |refused| && refused[i] == p;
        assert conflicts[i] == g;
      }
    }
  }

  method PushPuts(server: Handler, ps: seq<Put>, now: int) returns (resp: Response)
    requires now != GO_ZERO_TIME
    modifies server
    ensures resp.Ok? && server.State() == Run(old(server.State()), PutEvents(ps, false, now))
    ensures resp.notes.conflicts == Conflicts(old(server.State()), ps, false, now)
  {
    assert PutEvents(ps, false, now) == BatchEvents(Batch(ps, [], [], [], [], []), false, now);
    hide Run;
    hide Conflicts;
    resp := server.BatchPush(Batch(ps, [], [], [], [], []), false, now);
  }

  /** All planned uploads, a batch at a time. */
  method PushNotes(col: Collection, server: Handler, items: seq<Item>, now: int) returns (conflicts: seq<string>)
    requires now != GO_ZERO_TIME && DistinctGuids(col.notes) && DistinctItems(items)
    requires forall x <- items :: x.guid != "" && NoteNamed(col.notes, x.guid).Some?
    modifies server
    ensures PushedTo(col.notes, old(server.records), items, now, server.records)
    ensures OnlyRecords(old(server.State()), server.State())
    ensures forall g :: g in conflicts <==> SomeStale(col.notes, old(server.records), items, g)
  {
    ghost var was := server.records;
    conflicts := [];
    var start := 0;
    assert items[..0] == [];
    hide Stale;
    while start < |items|
      invariant 0 <= start <= |items|
      invariant OnlyRecords(old(server.State()), server.State())
      invariant PushedTo(col.notes, was, items[..start], now, server.records)
      invariant forall g :: g in conflicts <==> SomeStale(col.notes, was, items[..start], g)
    {
      var end := if start + BATCH_SIZE < |items| then start + BATCH_SIZE else |items|;
      var chunk := items[start..end];
      ghost var before := server.records;
      ChunkItems(items, start, end);
      var refused := PushBatch(col, server, chunk, now);
      PushesCompose(col.notes, was, items, start, end, now, before, server.records);
      ConflictsCompose(col.notes, was, items, start, end, before, conflicts, refused);
      conflicts := conflicts + refused;
      start := end;
    }
    assert items[..|items|] == items;
  }

  lemma ChunkItems(items: seq<Item>, start: nat, end: nat)
    requires DistinctItems(items) && start <= end <= |items|
    ensures DistinctItems(items[start..end]) && forall x <- items[start..end] :: x in items
  {
  }

  /** A row no earlier chunk names is stale for the whole list if it is for its own chunk. */
  lemma ChunkSeesOldRow(notes: map<int, NoteRow>, was: map<GuardedRef, Record>, items: seq<Item>, n: nat, end: nat, now: int,
                        before: map<GuardedRef, Record>, x: Item)
    requires DistinctItems(items) && n <= end <= |items| && x in items[n..end]
    requires PushedTo(notes, was, items[..n], now, before)
    ensures !Has(items[..n], x.guid)
    ensures NoteRef(x.guid) in before <==> NoteRef(x.guid) in was
    ensures NoteRef(x.guid) in was ==> before[NoteRef(x.guid)] == was[NoteRef(x.guid)]
    ensures Stale(notes, before, x) <==> Stale(notes, was, x)
  {
    var i :| n <= i < end && items[i] == x;
    forall y | y in items[..n] ensures y.guid != x.guid {
      var j :| 0 <= j < n && items[j] == y;
    }
    assert NoteRef(x.guid).NoteRef?;
  }

  lemma PushesCompose(notes: map<int, NoteRow>, was: map<GuardedRef, Record>, items: seq<Item>, n: nat, end: nat, now: int,
                      before: map<GuardedRef, Record>, after: map<GuardedRef, Record>)
    requires DistinctItems(items) && n <= end <= |items|
    requires PushedTo(notes, was, items[..n], now, before) && PushedTo(notes, before, items[n..end], now, after)
    ensures PushedTo(notes, was, items[..end], now, after)
  {
    assert items[..end] == items[..n] + items[n..end];
    forall x | x in items[n..end]
      ensures !Has(items[..n], x.guid) && (Stale(notes, before, x) <==> Stale(notes, was, x))
      ensures NoteRef(x.guid) in was ==> NoteRef(x.guid) in before && before[NoteRef(x.guid)] == was[NoteRef(x.guid)]
    {
      ChunkSeesOldRow(notes, was, items, n, end, now, before, x);
    }
    hide Stale;
    forall x | x in items[..n] ensures !Has(items[n..end], x.guid) { }
    forall g ensures Has(items[..end], g) <==> Has(items[..n], g) || Has(items[n..end], g) { }
  }

  lemma ConflictsCompose(notes: map<int, NoteRow>, was: map<GuardedRef, Record>, items: seq<Item>, n: nat, end: nat,
                         before: map<GuardedRef, Record>, earlier: seq<string>, more: seq<string>)
    requires n <= end <= |items|
    requires forall x <- items[n..end] :: Stale(notes, before, x) <==> Stale(notes, was, x)
    requires forall g :: g in earlier <==> SomeStale(notes, was, items[..n], g)
    requires forall g :: g in more <==> SomeStale(notes, before, items[n..end], g)
    ensures forall g :: g in earlier + more <==> SomeStale(notes, was, items[..end], g)
  {
    hide Stale;
    assert items[..end] == items[..n] + items[n..end];
  }

  /** The manifest of a collection, entry by entry. */
  ghost predicate IsNoteManifest(m: map<string, LocalEntry>, notes: map<int, NoteRow>) {
    && (forall guid :: guid in m <==> guid != "" && NoteNamed(notes, guid).Some?)
    && (forall guid :: guid in m ==> m[guid] == LocalEntryOf(NoteNamed(notes, guid).value))
  }

  lemma TriageIsPlan(nfc: string -> string, notes: map<int, NoteRow>, records: map<GuardedRef, Record>,
                     local: map<string, LocalEntry>, remote: map<GuardedRef, Entry>, e: Env, g: string)
    requires IsNoteManifest(local, notes) && NotesWellTyped(records) && g != ""
    requires NoteRef(g) in remote <==> NoteRef(g) in records
    requires NoteRef(g) in remote ==> remote[NoteRef(g)] == EntryOf(records[NoteRef(g)])
    ensures Agrees(TriageAt(local, remote, e, g), PlanOf(nfc, PairOf(notes, records, g), e), PairOf(notes, records, g))
  {
    TriageFollowsPlan(nfc, PairOf(notes, records, g), e);
    hide PlanOf;
    hide NewestSide;
  }

  /** The item names the version it was planned against, or none. */
  ghost predicate Based(records: map<GuardedRef, Record>, x: Item) {
    x.base == if NoteRef(x.guid) in records then DigestOf(records[NoteRef(x.guid)].content) else NoDigest
  }

  /** What the three lists of a plan mean. */
  ghost predicate Planned(nfc: string -> string, notes: map<int, NoteRow>, records: map<GuardedRef, Record>, e: Env,
                          pushes: seq<Item>, pulls: seq<string>, ambiguous: seq<Item>)
  {
    && NotesWellTyped(records)
    && (forall x <- pushes + ambiguous :: x.guid != "" && NoteNamed(notes, x.guid).Some? && Based(records, x))
    && (forall x <- ambiguous :: NoteRef(x.guid) in records)
    && (forall g <- pulls :: NoteRef(g) in records)
    && (forall g :: g != "" ==>
        var plan := PlanOf(nfc, PairOf(notes, records, g), e);
        && (Has(pushes, g) <==> plan == Push) && (g in pulls <==> plan == Pull)
        && (Has(ambiguous, g) <==> plan == Relay || plan == Conflict))
  }

  method PlanPass(notes: map<int, NoteRow>, remote: map<GuardedRef, Entry>, ghost records: map<GuardedRef, Record>,
                  nfc: string -> string, e: Env)
    returns (pushes: seq<Item>, pulls: seq<string>, ambiguous: seq<Item>)
    requires DistinctGuids(notes) && NotesWellTyped(records) && RecordsListed(remote, records) && records.Keys == remote.Keys
    ensures DistinctItems(pushes) && DistinctNames(pulls) && DistinctItems(ambiguous)
    ensures Planned(nfc, notes, records, e, pushes, pulls, ambiguous)
  {
    var local := NoteManifest(notes);
    pushes, pulls, ambiguous := PlanNotes(local, remote, e);
    forall g | g != ""
      ensures Agrees(TriageAt(local, remote, e, g), PlanOf(nfc, PairOf(notes, records, g), e), PairOf(notes, records, g))
    {
      TriageIsPlan(nfc, notes, records, local, remote, e, g);
    }
    ListsMeanPlan(nfc, notes, records, local, remote, e, pushes, pulls, ambiguous);
  }

  lemma ListsMeanPlan(nfc: string -> string, notes: map<int, NoteRow>, records: map<GuardedRef, Record>,
                      local: map<string, LocalEntry>, remote: map<GuardedRef, Entry>, e: Env,
                      pushes: seq<Item>, pulls: seq<string>, ambiguous: seq<Item>)
    requires NotesWellTyped(records) && IsNoteManifest(local, notes)
    requires forall g :: NoteRef(g) in remote <==> NoteRef(g) in records
    requires forall x :: x in pushes <==> TriageAt(local, remote, e, x.guid) == ToPush(x.base)
    requires forall g :: g in pulls <==> TriageAt(local, remote, e, g) == ToPull
    requires forall x :: x in ambiguous <==> TriageAt(local, remote, e, x.guid) == Ambiguous(x.base)
    requires forall g | g != "" :: Agrees(TriageAt(local, remote, e, g), PlanOf(nfc, PairOf(notes, records, g), e), PairOf(notes, records, g))
    ensures Planned(nfc, notes, records, e, pushes, pulls, ambiguous)
  {
    hide NewestSide;
    forall x | x in pushes + ambiguous
      ensures x.guid != "" && NoteNamed(notes, x.guid).Some? && Based(records, x)
      ensures x in ambiguous ==> NoteRef(x.guid) in records
    {
      TriageNeedsLocal(local, remote, e, x.guid);
    }
    forall g | g in pulls
      ensures NoteRef(g) in records
    {
      TriageNeedsLocal(local, remote, e, g);
    }
    hide PlanOf;
    hide TriageAt;
    forall g | g != ""
      ensures var plan := PlanOf(nfc, PairOf(notes, records, g), e);
        && (Has(pushes, g) <==> plan == Push) && (g in pulls <==> plan == Pull)
        && (Has(ambiguous, g) <==> plan == Relay || plan == Conflict)
    {
      var t := TriageAt(local, remote, e, g);
      if t.ToPush? { assert Item(g, t.base) in pushes; }
      if t.Ambiguous? { assert Item(g, t.base) in ambiguous; }
    }
  }

  lemma TriageNeedsLocal(local: map<string, LocalEntry>, remote: map<GuardedRef, Entry>, e: Env, g: string)
    ensures var t := TriageAt(local, remote, e, g);
      && (t.ToPush? || t.Ambiguous? ==> g in local)
      && (t.ToPull? || t.Ambiguous? ==> NoteRef(g) in remote)
  {
  }

  /** Reading the outcome of one guid off the lists. */
  lemma OutcomeFromLists(nfc: string -> string, rewrite: Text -> Text, e: Env, notetypes: map<int, NotetypeRow>, v: Pair,
                         notes: map<int, NoteRow>, records: map<GuardedRef, Record>, pulls: seq<string>, items: seq<Item>,
                         notes': map<int, NoteRow>, records': map<GuardedRef, Record>, g: string)
    requires NotesWellTyped(records) && g != "" && WellTyped(v) && Sees(v, PairOf(notes, records, g))
    requires (g in pulls <==> PlanOf(nfc, v, e) == Pull) && (Has(items, g) <==> PlanOf(nfc, v, e) in {Push, Relay})
    requires forall x <- items :: x.guid == g ==> (Stale(notes', records, x) <==> Refused(nfc, PairOf(notes, records, g), v, e))
    requires g in pulls ==> NoteNamed(notes', g) == Applied(rewrite, g, PairOf(notes, records, g), notetypes, e.wallClock)
    requires g !in pulls ==> NoteNamed(notes', g) == NoteNamed(notes, g)
    requires PushedTo(notes', records, items, e.pushedAt, records')
    ensures PairOf(notes', records', g) == OutcomeIn(nfc, rewrite, g, PairOf(notes, records, g), v, e, notetypes)
  {
    hide PlanOf;
    hide Stale;
    hide Applied;
    if Has(items, g) {
      var x :| x in items && x.guid == g;
    }
    assert PlanNeeds(nfc, v, e) by { WhatPlansNeed(nfc, v, e); }
  }

  ghost predicate PlanNeeds(nfc: string -> string, v: Pair, e: Env)
    requires WellTyped(v)
  {
    && (PlanOf(nfc, v, e) in {Push, Relay} ==> v.local.Some?)
    && (PlanOf(nfc, v, e) in {Pull, Relay, Conflict} ==> v.server.Some?)
    && (PlanOf(nfc, v, e) == Relay ==> Equal(nfc, v)) && (PlanOf(nfc, v, e) == Conflict ==> v.local.Some? && !Equal(nfc, v))
  }

  lemma WhatPlansNeed(nfc: string -> string, v: Pair, e: Env)
    requires WellTyped(v)
    ensures PlanNeeds(nfc, v, e)
  {
  }

  /** An upload is stale exactly when it is refused. */
  lemma StaleIsRefused(nfc: string -> string, e: Env, v: Pair, notes: map<int, NoteRow>, records: map<GuardedRef, Record>,
                       notes': map<int, NoteRow>, x: Item)
    requires NotesWellTyped(records) && x.guid != "" && WellTyped(v) && Sees(v, PairOf(notes, records, x.guid))
    requires PlanOf(nfc, v, e) in {Push, Relay} && NoteNamed(notes', x.guid) == NoteNamed(notes, x.guid)
    requires x.base == if v.server.Some? then DigestOf(v.server.value.content) else NoDigest
    ensures Stale(notes', records, x) <==> Refused(nfc, PairOf(notes, records, x.guid), v, e)
  {
    WhatPlansNeed(nfc, v, e);
    hide PlanOf;
  }

  /** What a pass does to one guid. */
  ghost predicate TakenToOutcome(nfc: string -> string, rewrite: Text -> Text, e: Env, l: Local, scope: set<string>,
                                 records: map<GuardedRef, Record>, listed: set<GuardedRef>, g: string,
                                 notes': map<int, NoteRow>, records': map<GuardedRef, Record>)
  {
    var p, v := PairOf(l.notes, records, g), ViewOf(l, scope, records, listed, g);
    && Sees(v, p) && WellTyped(v) && WellTyped(p)
    && PairOf(notes', records', g) == OutcomeIn(nfc, rewrite, g, p, v, e, l.notetypes)
  }

  /** Texts neither clocks nor equivalence reconcile, or an upload the server refuses. */
  ghost predicate InConflict(nfc: string -> string, e: Env, l: Local, scope: set<string>, records: map<GuardedRef, Record>,
                             listed: set<GuardedRef>, g: string)
  {
    var p, v := PairOf(l.notes, records, g), ViewOf(l, scope, records, listed, g);
    Sees(v, p) && WellTyped(v) && WellTyped(p) && (PlanOf(nfc, v, e) == Conflict || Refused(nfc, p, v, e))
  }

  /** What is known of a pass before it writes anything. */
  ghost predicate Decided(nfc: string -> string, e: Env, l: Local, scope: set<string>, records: map<GuardedRef, Record>,
                          listed: set<GuardedRef>, items: seq<Item>, pulls: seq<string>, conflicts: seq<string>)
  {
    && (forall g :: g != "" ==>
        var v := ViewOf(l, scope, records, listed, g);
        && WellTyped(v) && Sees(v, PairOf(l.notes, records, g))
        && (Has(items, g) <==> PlanOf(nfc, v, e) in {Push, Relay}) && (g in pulls <==> PlanOf(nfc, v, e) == Pull)
        && (g in conflicts <==> PlanOf(nfc, v, e) == Conflict))
    && (forall x <- items :: x.guid != "" && NoteNamed(l.notes, x.guid).Some? && Based(Listed(records, listed), x))
    && (forall g <- pulls :: NoteRef(g) in records)
  }

  lemma AmbiguousIsWhole(l: Local, scope: set<string>, records: map<GuardedRef, Record>, listed: set<GuardedRef>, g: string)
    requires DistinctGuids(l.notes) && g != "" && NotesWellTyped(records)
    requires NoteNamed(ScopedNotes(l, scope), g).Some? && NoteRef(g) in Listed(records, listed)
    ensures ViewOf(l, scope, records, listed, g) == PairOf(l.notes, records, g)
  {
    ShownNote(l, scope, g);
  }

  lemma PlanDecides(nfc: string -> string, e: Env, l: Local, scope: set<string>, records: map<GuardedRef, Record>, listed: set<GuardedRef>,
                    pushes: seq<Item>, pulls: seq<string>, ambiguous: seq<Item>, relays: seq<Item>, conflicts: seq<string>)
    requires DistinctGuids(l.notes) && NotesWellTyped(records)
    requires Planned(nfc, ScopedNotes(l, scope), Listed(records, listed), e, pushes, pulls, ambiguous)
    requires forall x :: x in relays <==> x in ambiguous && Equal(nfc, PairOf(l.notes, records, x.guid))
    requires forall g :: g in conflicts <==> exists x <- ambiguous :: x.guid == g && !Equal(nfc, PairOf(l.notes, records, x.guid))
    ensures Decided(nfc, e, l, scope, records, listed, pushes + relays, pulls, conflicts)
  {
    hide PlanOf;
    hide DistinctGuids;
    forall g | g != ""
      ensures var v := ViewOf(l, scope, records, listed, g);
        && WellTyped(v) && Sees(v, PairOf(l.notes, records, g))
        && (Has(pushes + relays, g) <==> PlanOf(nfc, v, e) in {Push, Relay}) && (g in pulls <==> PlanOf(nfc, v, e) == Pull)
        && (g in conflicts <==> PlanOf(nfc, v, e) == Conflict)
    {
      var v := ViewOf(l, scope, records, listed, g);
      ViewIsSeen(l, scope, records, listed, g);
      WhatPlansNeed(nfc, v, e);
      assert Has(pushes + relays, g) <==> Has(pushes, g) || Has(relays, g);
      if Has(ambiguous, g) {
        var x :| x in ambiguous && x.guid == g;
        AmbiguousIsWhole(l, scope, records, listed, g);
      }
    }
    forall x | x in pushes + relays
      ensures x.guid != "" && NoteNamed(l.notes, x.guid).Some? && Based(Listed(records, listed), x)
    {
      assert x in pushes + ambiguous;
      ShownNote(l, scope, x.guid);
    }
  }

  /** After pulls and uploads every guid is at its outcome. */
  lemma DecidedIsDone(nfc: string -> string, rewrite: Text -> Text, e: Env, l: Local, scope: set<string>, records: map<GuardedRef, Record>,
                      listed: set<GuardedRef>, items: seq<Item>, pulls: seq<string>, conflicts: seq<string>, refused: seq<string>,
                      notes': map<int, NoteRow>, records': map<GuardedRef, Record>, g: string)
    requires DistinctGuids(l.notes) && NotesWellTyped(records) && g != ""
    requires Decided(nfc, e, l, scope, records, listed, items, pulls, conflicts)
    requires g in pulls ==> NoteNamed(notes', g) == Applied(rewrite, g, PairOf(l.notes, records, g), l.notetypes, e.wallClock)
    requires g !in pulls ==> NoteNamed(notes', g) == NoteNamed(l.notes, g)
    requires PushedTo(notes', records, items, e.pushedAt, records')
    requires g in refused <==> SomeStale(notes', records, items, g)
    ensures TakenToOutcome(nfc, rewrite, e, l, scope, records, listed, g, notes', records')
    ensures g in conflicts + refused <==> InConflict(nfc, e, l, scope, records, listed, g)
  {
    var p, v := PairOf(l.notes, records, g), ViewOf(l, scope, records, listed, g);
    assert WellTyped(p) && WellTyped(v) && Sees(v, p);
    hide DistinctGuids;
    hide NotesWellTyped;
    hide ViewOf;
    hide OutcomeIn;
    hide Applied;
    forall x | x in items && x.guid == g
      ensures Stale(notes', records, x) <==> Refused(nfc, p, v, e)
    {
      StaleIsRefused(nfc, e, v, l.notes, records, notes', x);
    }
    assert Refused(nfc, p, v, e) ==> Has(items, g);
    OutcomeFromLists(nfc, rewrite, e, l.notetypes, v, l.notes, records, pulls, items, notes', records', g);
  }

  // What a pass does to a note, told by the texts and the times alone.

  /** Both times are known, and neither is more than five minutes ahead of the manifest. */
  predicate KnownTimes(mod: int, clientModifiedAt: int, now: int) {
    0 < mod && 0 < clientModifiedAt && 0 < now && mod * SECOND <= now + MAX_FUTURE_SKEW && clientModifiedAt <= now + MAX_FUTURE_SKEW
  }

  /** The row holds this note, received by the pass, under the note's own time unless that is too late. */
  ghost predicate Holds(row: Record, note: NoteRow, e: Env) {
    && row.content == NoteContent(note.mid, note.fields, note.tags) && row.modifiedAt == e.pushedAt
    && (note.mod * SECOND <= e.pushedAt + MAX_FUTURE_CLOCK_SKEW ==> row.clientModifiedAt == note.mod * SECOND)
  }

  /** The same text up to Unicode composition and the order of the tags. */
  ghost predicate SameWords(nfc: string -> string, fields: seq<string>, tags: seq<string>, fields': seq<string>, tags': seq<string>) {
    && |fields| == |fields'| && (forall i :: 0 <= i < |fields| ==> nfc(fields[i]) == nfc(fields'[i]))
    && multiset(seq(|tags|, i requires 0 <= i < |tags| => nfc(tags[i]))) == multiset(seq(|tags'|, i requires 0 <= i < |tags'| => nfc(tags'[i])))
  }

  lemma EquivalentIffSameWords(nfc: string -> string, a: Text, b: Text)
    ensures CanonicallyEquivalent(nfc, a, b) <==> SameWords(nfc, a.fields, a.tags, b.fields, b.tags)
  {
    var x, y := Normalized(nfc, a.fields), Normalized(nfc, b.fields);
    assert |x| == |a.fields| && |y| == |b.fields|;
    assert forall i :: 0 <= i < |a.fields| ==> x[i] == nfc(a.fields[i]);
    assert forall i :: 0 <= i < |b.fields| ==> y[i] == nfc(b.fields[i]);
    assert Normalized(nfc, a.tags) == seq(|a.tags|, i requires 0 <= i < |a.tags| => nfc(a.tags[i]));
    assert Normalized(nfc, b.tags) == seq(|b.tags|, i requires 0 <= i < |b.tags| => nfc(b.tags[i]));
  }

  /** Fields cut or filled with blanks to a count. */
  ghost predicate Resized(fields: seq<string>, n: nat, out: seq<string>) {
    |out| == n && forall i :: 0 <= i < n ==> out[i] == if i < |fields| then fields[i] else ""
  }

  /** The note holds the row's text as `n` fields, and the row's source time in whole seconds. */
  ghost predicate Took(note: NoteRow, row: Record, n: nat, rewrite: Text -> Text)
    requires IsNote(row)
  {
    && (exists fields :: Resized(row.content.fields, n, fields) && Text(note.fields, note.tags) == rewrite(Text(fields, row.content.tags)))
    && (0 < row.clientModifiedAt <= row.modifiedAt + MAX_FUTURE_SKEW && 0 < row.modifiedAt ==> note.mod == row.clientModifiedAt / SECOND)
  }

  /**
   * A note the pass sees on both sides.  Equal texts stay.  Under newest-wins the
   * side that is a second or more later gives the other its text.  Without a winner
   * the note stays, and is relayed if the texts are equivalent and reported if not.
   */
  ghost predicate SharedNoteDecided(nfc: string -> string, rewrite: Text -> Text, e: Env, note: NoteRow, row: Record,
                                    note': NoteRow, row': Record, reported: bool)
    requires IsNote(row)
  {
    var same := note.fields == row.content.fields && note.tags == row.content.tags;
    var known, ahead := KnownTimes(note.mod, row.clientModifiedAt, e.now), note.mod * SECOND - row.clientModifiedAt;
    && note'.guid == note.guid && note'.mid == note.mid
    && (same ==> note' == note && row' == row && !reported)
    && (!same && e.newestWins && known && ahead <= -SECOND ==> row' == row && Took(note', row, |note.fields|, rewrite) && !reported)
    && (!same && e.newestWins && known && ahead >= SECOND ==> note' == note && Holds(row', note, e) && !reported)
    && (!same && (!e.newestWins || (known && -SECOND < ahead < SECOND)) ==>
        && note' == note && (reported <==> !SameWords(nfc, note.fields, note.tags, row.content.fields, row.content.tags))
        && if reported then row' == row else Holds(row', note, e))
  }

  lemma SharedPairDecided(nfc: string -> string, rewrite: Text -> Text, e: Env, g: string, note: NoteRow, row: Record,
                          p': Pair, notetypes: map<int, NotetypeRow>)
    requires IsNote(row) && note.guid == g
    requires var p := Pair(Some(note), Some(row)); p' == OutcomeIn(nfc, rewrite, g, p, p, e, notetypes)
    ensures p'.local.Some? && p'.server.Some?
    ensures SharedNoteDecided(nfc, rewrite, e, note, row, p'.local.value, p'.server.value,
                              PlanOf(nfc, Pair(Some(note), Some(row)), e) == Conflict)
  {
    EquivalentIffSameWords(nfc, TextOf(note), ServerText(row));
    hide CanonicallyEquivalent;
    hide SameWords;
    assert Resized(row.content.fields, |note.fields|, Padded(row.content.fields, |note.fields|));
  }

  /** The note is among those the pass looks at. */
  ghost predicate IsShown(l: Local, scope: set<string>, n: int) {
    n in l.notes && (scope == {} || exists c :: c in l.cards && l.cards[c].nid == n && InScope(l.cards[c].deck, scope))
  }

  /** What becomes of the notes of one guid, whichever sides hold it. */
  ghost predicate GuidDecided(nfc: string -> string, rewrite: Text -> Text, e: Env, l: Local, scope: set<string>, records: map<GuardedRef, Record>,
                              listed: set<GuardedRef>, g: string, notes': map<int, NoteRow>, records': map<GuardedRef, Record>, reported: bool)
  {
    var r: GuardedRef := NoteRef(g);
    && (forall n :: IsShown(l, scope, n) && l.notes[n].guid == g && r in records && r in listed && IsNote(records[r]) ==>
        n in notes' && r in records' && SharedNoteDecided(nfc, rewrite, e, l.notes[n], records[r], notes'[n], records'[r], reported))
    && (forall n :: IsShown(l, scope, n) && l.notes[n].guid == g && r !in records ==>
        n in notes' && notes'[n] == l.notes[n] && r in records' && Holds(records'[r], l.notes[n], e) && !reported)
    && ((forall n :: n in l.notes ==> l.notes[n].guid != g) && r in records && r in listed && IsNote(records[r]) ==>
        && r in records' && records'[r] == records[r] && !reported
        && var mid := records[r].content.notetypeId; mid != 0 && mid in l.notetypes ==>
           exists n :: n in notes' && notes'[n].guid == g && notes'[n].mid == mid && Took(notes'[n], records[r], l.notetypes[mid].fieldCount, rewrite))
  }

  lemma ShownOnBothSides(l: Local, scope: set<string>, records: map<GuardedRef, Record>, listed: set<GuardedRef>, n: int)
    requires DistinctGuids(l.notes) && IsShown(l, scope, n) && l.notes[n].guid != ""
    ensures var g := l.notes[n].guid;
      var row := if NoteRef(g) in records then Some(records[NoteRef(g)]) else None;
      && PairOf(l.notes, records, g) == Pair(Some(l.notes[n]), row)
      && ViewOf(l, scope, records, listed, g) == Pair(Some(l.notes[n]), if NoteRef(g) in listed then row else None)
  {
    var g, shown := l.notes[n].guid, ScopedNotes(l, scope);
    ShownNote(l, scope, g);
    assert n in shown && shown[n] == l.notes[n];
    NamedNote(l.notes, n, g);
    NamedNote(shown, n, g);
  }

  /** The guid is on the server only. */
  lemma CreatedNote(nfc: string -> string, rewrite: Text -> Text, e: Env, l: Local, scope: set<string>, records: map<GuardedRef, Record>,
                    listed: set<GuardedRef>, g: string, notes': map<int, NoteRow>, records': map<GuardedRef, Record>)
    requires TakenToOutcome(nfc, rewrite, e, l, scope, records, listed, g, notes', records') && g != "" && DistinctGuids(l.notes)
    requires (forall n :: n in l.notes ==> l.notes[n].guid != g) && NoteRef(g) in records && NoteRef(g) in listed && IsNote(records[NoteRef(g)])
    ensures NoteRef(g) in records' && records'[NoteRef(g)] == records[NoteRef(g)]
    ensures !InConflict(nfc, e, l, scope, records, listed, g)
    ensures var row := records[NoteRef(g)];
      var mid := row.content.notetypeId;
      mid != 0 && mid in l.notetypes ==>
        exists n :: n in notes' && notes'[n].guid == g && notes'[n].mid == mid && Took(notes'[n], row, l.notetypes[mid].fieldCount, rewrite)
  {
    ShownNote(l, scope, g);
    var p, p' := PairOf(l.notes, records, g), PairOf(notes', records', g);
    assert p == ViewOf(l, scope, records, listed, g);
    var row := records[NoteRef(g)];
    var mid := row.content.notetypeId;
    if mid != 0 && mid in l.notetypes {
      assert Resized(row.content.fields, l.notetypes[mid].fieldCount, Padded(row.content.fields, l.notetypes[mid].fieldCount));
      var n :| HasGuid(notes', n, g) && notes'[n] == p'.local.value;
    }
  }

  lemma GuidIsDecided(nfc: string -> string, rewrite: Text -> Text, e: Env, l: Local, scope: set<string>, records: map<GuardedRef, Record>,
                      listed: set<GuardedRef>, g: string, notes': map<int, NoteRow>, records': map<GuardedRef, Record>)
    requires DistinctGuids(l.notes) && DistinctGuids(notes') && KeepsIds(l.notes, notes') && g != ""
    requires TakenToOutcome(nfc, rewrite, e, l, scope, records, listed, g, notes', records')
    ensures GuidDecided(nfc, rewrite, e, l, scope, records, listed, g, notes', records', InConflict(nfc, e, l, scope, records, listed, g))
  {
    hide TakenToOutcome;
    hide InConflict;
    hide SharedNoteDecided;
    hide DistinctGuids;
    hide KeepsIds;
    hide Holds;
    hide Took;
    var r: GuardedRef := NoteRef(g);
    forall n | IsShown(l, scope, n) && l.notes[n].guid == g
      ensures r in records && r in listed && IsNote(records[r]) ==>
        n in notes' && r in records' && SharedNoteDecided(nfc, rewrite, e, l.notes[n], records[r], notes'[n], records'[r], InConflict(nfc, e, l, scope, records, listed, g))
      ensures r !in records ==>
        n in notes' && notes'[n] == l.notes[n] && r in records' && Holds(records'[r], l.notes[n], e) && !InConflict(nfc, e, l, scope, records, listed, g)
    {
      ShownGuidDecided(nfc, rewrite, e, l, scope, records, listed, n, notes', records');
    }
    if (forall n :: n in l.notes ==> l.notes[n].guid != g) && r in records && r in listed && IsNote(records[r]) {
      CreatedNote(nfc, rewrite, e, l, scope, records, listed, g, notes', records');
    }
  }

  lemma AllDecided(nfc: string -> string, rewrite: Text -> Text, e: Env, l: Local, scope: set<string>, records: map<GuardedRef, Record>,
                   listed: set<GuardedRef>, conflicts: seq<string>, notes': map<int, NoteRow>, records': map<GuardedRef, Record>)
    requires DistinctGuids(l.notes) && DistinctGuids(notes') && KeepsIds(l.notes, notes')
    requires forall g :: g != "" ==> TakenToOutcome(nfc, rewrite, e, l, scope, records, listed, g, notes', records')
    requires forall g :: g != "" ==> (g in conflicts <==> InConflict(nfc, e, l, scope, records, listed, g))
    ensures forall g :: g != "" ==> GuidDecided(nfc, rewrite, e, l, scope, records, listed, g, notes', records', g in conflicts)
  {
    hide *;
    forall g | g != ""
      ensures GuidDecided(nfc, rewrite, e, l, scope, records, listed, g, notes', records', g in conflicts)
    {
      GuidIsDecided(nfc, rewrite, e, l, scope, records, listed, g, notes', records');
    }
  }

  lemma ShownGuidDecided(nfc: string -> string, rewrite: Text -> Text, e: Env, l: Local, scope: set<string>, records: map<GuardedRef, Record>,
                         listed: set<GuardedRef>, n: int, notes': map<int, NoteRow>, records': map<GuardedRef, Record>)
    requires DistinctGuids(l.notes) && DistinctGuids(notes') && KeepsIds(l.notes, notes') && IsShown(l, scope, n) && l.notes[n].guid != ""
    requires TakenToOutcome(nfc, rewrite, e, l, scope, records, listed, l.notes[n].guid, notes', records')
    ensures var g, r := l.notes[n].guid, NoteRef(l.notes[n].guid);
      var reported := InConflict(nfc, e, l, scope, records, listed, g);
      && n in notes'
      && (r in records && r in listed && IsNote(records[r]) ==>
          r in records' && SharedNoteDecided(nfc, rewrite, e, l.notes[n], records[r], notes'[n], records'[r], reported))
      && (r !in records ==> notes'[n] == l.notes[n] && r in records' && Holds(records'[r], l.notes[n], e) && !reported)
  {
    var g := l.notes[n].guid;
    ShownOnBothSides(l, scope, records, listed, n);
    NamedNote(notes', n, g);
    var p, v := PairOf(l.notes, records, g), ViewOf(l, scope, records, listed, g);
    hide DistinctGuids;
    hide KeepsIds;
    hide IsShown;
    hide NoteNamed;
    if NoteRef(g) in records && NoteRef(g) in listed && IsNote(records[NoteRef(g)]) {
      SharedPairDecided(nfc, rewrite, e, g, l.notes[n], records[NoteRef(g)], PairOf(notes', records', g), l.notetypes);
      SeeingAllIsPlain(nfc, rewrite, g, p, e, l.notetypes);
    }
  }

  /**
   * One note pass with no other writer, over the decks of `scope` and the rows the
   * manifest lists, takes every guid to its outcome.  It reports exactly the guids
   * whose texts no clock and no equivalence reconciles, and those the server
   * refuses because it holds another text the manifest did not list.
   */
  method SyncNotesOnce(col: Collection, server: Handler, remote: map<GuardedRef, Entry>, scope: set<string>, nfc: string -> string,
                       rewrite: Text -> Text, e: Env)
    returns (conflicts: seq<string>)
    requires DistinctGuids(col.notes) && NotesWellTyped(server.records) && e.pushedAt != GO_ZERO_TIME
    requires RecordsListed(remote, server.records)
    modifies col`notes, server
    ensures DistinctGuids(col.notes) && KeepsIds(old(col.notes), col.notes)
    ensures NotesWellTyped(server.records) && OnlyRecords(old(server.State()), server.State())
    ensures forall r: GuardedRef :: !r.NoteRef? || r.guid == "" ==>
      (r in server.records <==> r in old(server.records)) && (r in server.records ==> server.records[r] == old(server.records)[r])
    ensures forall g :: g != "" ==>
      TakenToOutcome(nfc, rewrite, e, old(col.State()), scope, old(server.records), remote.Keys, g, col.notes, server.records)
    ensures forall g :: g != "" ==>
      (g in conflicts <==> InConflict(nfc, e, old(col.State()), scope, old(server.records), remote.Keys, g))
    ensures forall g :: g != "" ==>
      GuidDecided(nfc, rewrite, e, old(col.State()), scope, old(server.records), remote.Keys, g, col.notes, server.records, g in conflicts)
  {
    hide Planned;
    ghost var l, records := col.State(), server.records;
    var shown := ScopedNotes(col.State(), scope);
    ghost var seen := Listed(records, remote.Keys);
    ShownNote(l, scope, "-");
    assert seen.Keys == remote.Keys;
    var pushes, pulls, ambiguous := PlanPass(shown, remote, seen, nfc, e);
    forall x | x in ambiguous
      ensures x.guid != "" && NoteNamed(l.notes, x.guid).Some? && NoteRef(x.guid) in records
    {
      assert x in pushes + ambiguous;
      ShownNote(l, scope, x.guid);
    }
    var relays, conflicts0 := Hydrate(col, server, ambiguous, nfc);
    PlanDecides(nfc, e, l, scope, records, remote.Keys, pushes, pulls, ambiguous, relays, conflicts0);
    var items := pushes + relays;
    DistinctUploads(nfc, shown, seen, e, pushes, pulls, ambiguous, relays);
    PullNotes(col, server, pulls, rewrite, e.wallClock);
    forall x | x in items
      ensures NoteNamed(col.notes, x.guid) == NoteNamed(l.notes, x.guid)
    {
      assert Has(items, x.guid);
    }
    var refused := PushNotes(col, server, items, e.pushedAt);
    forall g | g != ""
      ensures TakenToOutcome(nfc, rewrite, e, l, scope, records, remote.Keys, g, col.notes, server.records)
      ensures g in conflicts0 + refused <==> InConflict(nfc, e, l, scope, records, remote.Keys, g)
    {
      DecidedIsDone(nfc, rewrite, e, l, scope, records, remote.Keys, items, pulls, conflicts0, refused, col.notes, server.records, g);
    }
    PushesAreNotes(col.notes, records, items, e.pushedAt, server.records);
    assert !Has(items, "");
    conflicts := conflicts0 + refused;
    AllDecided(nfc, rewrite, e, l, scope, records, remote.Keys, conflicts, col.notes, server.records);
  }

  /** No guid is both pushed and relayed. */
  lemma DistinctUploads(nfc: string -> string, notes: map<int, NoteRow>, records: map<GuardedRef, Record>, e: Env,
                        pushes: seq<Item>, pulls: seq<string>, ambiguous: seq<Item>, relays: seq<Item>)
    requires Planned(nfc, notes, records, e, pushes, pulls, ambiguous) && DistinctItems(pushes) && DistinctItems(relays)
    requires forall x <- relays :: x in ambiguous
    ensures DistinctItems(pushes + relays)
  {
    hide PlanOf;
    forall i, j | 0 <= i < |pushes| && 0 <= j < |relays|
      ensures pushes[i].guid != relays[j].guid
    {
      assert pushes[i] in pushes && relays[j] in ambiguous;
      assert pushes[i] in pushes + ambiguous && Has(pushes, pushes[i].guid) && Has(ambiguous, relays[j].guid);
    }
  }

  lemma PushesAreNotes(notes: map<int, NoteRow>, was: map<GuardedRef, Record>, items: seq<Item>, now: int, records: map<GuardedRef, Record>)
    requires NotesWellTyped(was) && PushedTo(notes, was, items, now, records)
    ensures NotesWellTyped(records)
  {
    hide Unseen;
    forall g | NoteRef(g) in records
      ensures IsNote(records[NoteRef(g)])
    {
      if Has(items, g) {
        var x :| x in items && x.guid == g;
        if Stale(notes, was, x) { StaleIsThere(notes, was, x); }
      }
    }
  }

  lemma StaleIsThere(notes: map<int, NoteRow>, was: map<GuardedRef, Record>, x: Item)
    requires Stale(notes, was, x)
    ensures NoteRef(x.guid) in was
  {
  }

  // ------------------------------------------------------------- refused in every pass --

  /** Note passes that end before any card is touched, as a conflict ends them, with the note out of the manifest. */
  ghost predicate EndedPasses(nfc: string -> string, rewrite: Text -> Text, es: seq<Env>, ls: seq<Local>, rs: seq<map<GuardedRef, Record>>,
                              scope: set<string>, listed: seq<set<GuardedRef>>, g: string)
  {
    && |ls| == |rs| == |es| + 1 && |listed| == |es| + 1
    && (forall i :: 0 <= i < |ls| ==> DistinctGuids(ls[i].notes) && NotesWellTyped(rs[i]) && NoteRef(g) !in listed[i])
    && (forall i :: 0 <= i < |es| ==>
        && ls[i + 1] == ls[i].(notes := ls[i + 1].notes) && KeepsIds(ls[i].notes, ls[i + 1].notes)
        && TakenToOutcome(nfc, rewrite, es[i], ls[i], scope, rs[i], listed[i], g, ls[i + 1].notes, rs[i + 1]))
  }

  /** The note is shown to the pass, and the server holds another text of it. */
  ghost predicate HiddenRival(l: Local, scope: set<string>, records: map<GuardedRef, Record>, g: string) {
    var shown := NoteNamed(ScopedNotes(l, scope), g);
    && shown.Some? && NoteRef(g) in records && IsNote(records[NoteRef(g)])
    && TextOf(shown.value) != ServerText(records[NoteRef(g)])
  }

  lemma RivalConflicts(nfc: string -> string, e: Env, l: Local, scope: set<string>, records: map<GuardedRef, Record>,
                       listed: set<GuardedRef>, g: string)
    requires DistinctGuids(l.notes) && NotesWellTyped(records) && g != "" && NoteRef(g) !in listed
    ensures HiddenRival(l, scope, records, g) ==> InConflict(nfc, e, l, scope, records, listed, g)
    ensures NoteNamed(ScopedNotes(l, scope), g).Some? && InConflict(nfc, e, l, scope, records, listed, g) ==> HiddenRival(l, scope, records, g)
  {
    ViewIsSeen(l, scope, records, listed, g);
    ShownNote(l, scope, g);
  }

  lemma ShownStays(l: Local, l': Local, scope: set<string>, g: string)
    requires DistinctGuids(l.notes) && DistinctGuids(l'.notes) && g != ""
    requires l' == l.(notes := l'.notes) && KeepsIds(l.notes, l'.notes)
    ensures NoteNamed(ScopedNotes(l, scope), g).Some? ==> NoteNamed(ScopedNotes(l', scope), g) == NoteNamed(l'.notes, g)
  {
    var shown, shown' := ScopedNotes(l, scope), ScopedNotes(l', scope);
    if n :| HasGuid(shown, n, g) {
      assert HasGuid(shown', n, g);
      ShownNote(l', scope, g);
    }
  }

  /**
   * A note in the routes whose text differs from a server row outside them is a
   * conflict in every pass, whatever the policies and clocks, and no pass moves
   * either side: the conflict ends each pass before the cards that would bring the
   * row into the routes are uploaded.
   */
  lemma {:induction false} HiddenRivalConflictsForEver(nfc: string -> string, rewrite: Text -> Text, es: seq<Env>, ls: seq<Local>,
                                                       rs: seq<map<GuardedRef, Record>>, scope: set<string>, listed: seq<set<GuardedRef>>,
                                                       g: string, n: nat, e: Env)
    requires EndedPasses(nfc, rewrite, es, ls, rs, scope, listed, g) && g != "" && n <= |es|
    requires HiddenRival(ls[0], scope, rs[0], g)
    ensures PairOf(ls[n].notes, rs[n], g) == PairOf(ls[0].notes, rs[0], g)
    ensures HiddenRival(ls[n], scope, rs[n], g) && InConflict(nfc, e, ls[n], scope, rs[n], listed[n], g)
  {
    if n > 0 {
      HiddenRivalConflictsForEver(nfc, rewrite, es, ls, rs, scope, listed, g, n - 1, es[n - 1]);
      var l, l' := ls[n - 1], ls[n];
      ViewIsSeen(l, scope, rs[n - 1], listed[n - 1], g);
      ShownNote(l, scope, g);
      ShownStays(l, l', scope, g);
      var p, v := PairOf(l.notes, rs[n - 1], g), ViewOf(l, scope, rs[n - 1], listed[n - 1], g);
      RefusedStaysRefused(nfc, rewrite, g, p, v, es[n - 1], e, l.notetypes);
    }
    RivalConflicts(nfc, e, ls[n], scope, rs[n], listed[n], g);
  }
}
