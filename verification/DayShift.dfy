// Scheduling days across collections: a due day counts from the creation day of
// the collection that wrote it (anki_apply.py: apply_card; anki_local.py:
// card_record; full_diff.py: card_comparison_fingerprint).

module DayShift {
  import opened Prelude
  import opened Anki

  /** The queues whose due day is shifted: review and interday learning. */
  predicate Shifted(s: Scheduling) {
    s.queue == 2 || s.queue == 3
  }

  /** What a collection created at `crt` stores of a record; it becomes the writer. */
  function Localized(s: Scheduling, crt: int): Scheduling {
    var shift := if s.crt != 0 then DayOf(s.crt) - DayOf(crt) else 0;
    if Shifted(s) then s.(due := s.due + shift, odue := if s.odid != 0 then s.odue + shift else s.odue, crt := crt)
    else s.(crt := crt)
  }

  /** Through any number of collections, the last one last. */
  function Relayed(s: Scheduling, crts: seq<int>): Scheduling {
    if |crts| == 0 then s else Localized(Relayed(s, crts[..|crts| - 1]), crts[|crts| - 1])
  }

  datatype Fingerprint = Fingerprint(
    kind: int, queue: int, due: int, ivl: int, factor: int, reps: int, lapses: int, left: int, odue: int, flags: int)

  /** What the comparison of two collections looks at; odid and data are not part of it. */
  function FingerprintOf(s: Scheduling): Fingerprint {
    var day := DayOf(s.crt);
    var shifts := Shifted(s) && day != 0;
    Fingerprint(s.kind, s.queue, if shifts then s.due + day else s.due, s.ivl, s.factor, s.reps, s.lapses, s.left,
                if shifts && s.odid != 0 then s.odue + day else s.odue, s.flags)
  }

  /** What the comparison takes for the same: everything but the deck a card was borrowed from and its data, days by the calendar. */
  lemma SameFingerprintIff(a: Scheduling, b: Scheduling)
    ensures FingerprintOf(a) == FingerprintOf(b) <==>
      && a.kind == b.kind && a.queue == b.queue && a.ivl == b.ivl && a.factor == b.factor && a.reps == b.reps
      && a.lapses == b.lapses && a.left == b.left && a.flags == b.flags
      && (if a.queue == 2 || a.queue == 3
          then a.due + a.crt / 86400 == b.due + b.crt / 86400
               && (if a.odid != 0 then a.odue + a.crt / 86400 else a.odue) == (if b.odid != 0 then b.odue + b.crt / 86400 else b.odue)
          else a.due == b.due && a.odue == b.odue)
  {
  }

  /**
   * One hop keeps the fingerprint exactly when the writer stated its creation
   * time, or nothing needs shifting.
   */
  lemma HopKeepsFingerprintIff(s: Scheduling, crt: int)
    ensures FingerprintOf(Localized(s, crt)) == FingerprintOf(s)
       <==> s.crt != 0 || !Shifted(s) || DayOf(crt) == 0
  {
  }

  /** Only the last collection of a chain matters: the shifts telescope, and nothing but days moves. */
  lemma {:induction false} RelayIsPathIndependent(s: Scheduling, crts: seq<int>)
    requires s.crt != 0 && |crts| > 0 && forall c <- crts :: c != 0
    ensures Relayed(s, crts) == Localized(s, crts[|crts| - 1])
    ensures Relayed(s, crts).(due := s.due, odue := s.odue, crt := s.crt) == s
  {
    var before := crts[..|crts| - 1];
    assert crts[|crts| - 1] in crts && forall c <- before :: c in crts;
    LocalizedMovesDays(Relayed(s, before), crts[|crts| - 1]);
    hide Localized;
    if |before| > 0 {
      RelayIsPathIndependent(s, before);
      assert before[|before| - 1] in before;
      TwoHops(s, before[|before| - 1], crts[|crts| - 1]);
    } else {
      assert Relayed(s, before) == s;
    }
  }

  lemma TwoHops(s: Scheduling, via: int, crt: int)
    requires s.crt != 0 && via != 0
    ensures Localized(Localized(s, via), crt) == Localized(s, crt)
  {
  }

  lemma LocalizedMovesDays(s: Scheduling, crt: int)
    ensures Localized(s, crt).(due := s.due, odue := s.odue, crt := s.crt) == s
  {
  }

  /** Any chain of collections with known creation times keeps the fingerprint. */
  lemma ChainKeepsFingerprint(s: Scheduling, crts: seq<int>)
    requires s.crt != 0 && forall c <- crts :: c != 0
    ensures FingerprintOf(Relayed(s, crts)) == FingerprintOf(s)
  {
    if |crts| > 0 {
      assert crts[|crts| - 1] in crts;
      RelayIsPathIndependent(s, crts);
      HopKeepsFingerprintIff(s, crts[|crts| - 1]);
    }
  }

  // ------------------------------------------------------------ absolute days --

  /** Anki also counts the due of a suspended or buried review card in days. */
  predicate DueIsDay(s: Scheduling) {
    Shifted(s) || (s.queue < 0 && s.kind == 2)
  }

  /** The original due of a review or relearning card in a filtered deck is a day. */
  predicate OriginalDueIsDay(s: Scheduling) {
    s.odid != 0 && (s.kind == 2 || s.kind == 3)
  }

  function AbsoluteDue(s: Scheduling): Option<int> {
    if DueIsDay(s) then Some(s.due + DayOf(s.crt)) else None
  }

  function AbsoluteOriginalDue(s: Scheduling): Option<int> {
    if OriginalDueIsDay(s) then Some(s.odue + DayOf(s.crt)) else None
  }

  /**
   * The calendar days of a card survive a chain exactly when its queue is one of
   * the shifted ones, or it has no such day, or both ends count from the same day.
   */
  lemma ChainKeepsDaysIff(s: Scheduling, crts: seq<int>)
    requires s.crt != 0 && |crts| > 0 && forall c <- crts :: c != 0
    ensures AbsoluteDue(Relayed(s, crts)) == AbsoluteDue(s)
       <==> Shifted(s) || !DueIsDay(s) || DayOf(s.crt) == DayOf(crts[|crts| - 1])
    ensures AbsoluteOriginalDue(Relayed(s, crts)) == AbsoluteOriginalDue(s)
       <==> Shifted(s) || !OriginalDueIsDay(s) || DayOf(s.crt) == DayOf(crts[|crts| - 1])
  {
    RelayIsPathIndependent(s, crts);
  }

  /**
   * The failing family in one card: a suspended review due on day 1000 of an older
   * collection falls due a hundred days later in one created a hundred days after
   * it, while both sides still compare as equal.
   */
  lemma SuspendedReviewDrifts()
    ensures var s := Scheduling(2, -1, 1000, 30, 2500, 5, 0, 0, 0, 0, 0, "", 100 * SECONDS_PER_DAY);
      var s' := Localized(s, 200 * SECONDS_PER_DAY);
      AbsoluteDue(s) == Some(1100) && AbsoluteDue(s') == Some(1200) && FingerprintOf(s') == FingerprintOf(s)
  {
  }
}
