// Time policy: the server's write-time clamp (internal/handler/upsert.go), the
// client's newest-wins decision (conflict_policy.py) and the source time a pull
// stores in the collection (anki_apply.py), and why they fit together.

module Clock {
  import opened Prelude

  const SECOND := 1_000_000
  /** The server accepts a source clock at most five minutes ahead of its own. */
  const MAX_FUTURE_CLOCK_SKEW := 5 * 60 * SECOND
  /** The client's ceiling over the manifest clock, and its receipt tolerance. */
  const MAX_FUTURE_SKEW := 300 * SECOND
  const TIMESTAMP_RESOLUTION := SECOND
  /** Go's zero time (year 1), sent when a request carries no timestamp. */
  const GO_ZERO_TIME := -62_135_596_800 * SECOND

  /** The stored source time of a write: unknown and far-future clocks become `now`. */
  function UtcWriteTime(now: int, clientModifiedAt: int): (t: int)
    ensures t <= now + MAX_FUTURE_CLOCK_SKEW
  {
    if clientModifiedAt == GO_ZERO_TIME || clientModifiedAt > now + MAX_FUTURE_CLOCK_SKEW
    then now
    else clientModifiedAt
  }

  /** A write keeps the client's time, unless it sent none or one more than five minutes ahead: then the receipt time. */
  predicate KeepsTime(receipt: int, sent: int, stored: int) {
    var none, late := sent == GO_ZERO_TIME, sent - receipt > 300 * 1_000_000;
    && (none || late ==> stored == receipt)
    && (!none && !late ==> stored == sent)
  }

  /** The handlers clamp and the upserts clamp again; twice is the same as once. */
  lemma ClampingTwiceIsClampingOnce(now: int, t: int)
    requires now != GO_ZERO_TIME
    ensures UtcWriteTime(now, UtcWriteTime(now, t)) == UtcWriteTime(now, t)
  {
  }

  // ------------------------------------------------------------ newest side --

  datatype Winner = Local | Server

  /** The two timestamps of a manifest entry or record; 0 means unknown. */
  datatype Stamps = Stamps(clientModified: Option<int>, modified: Option<int>)

  function Timestamp(t: Option<int>): nat {
    if t.Some? && t.value > 0 then t.value else 0
  }

  function ModifiedTimestamp(s: Stamps): nat {
    if Timestamp(s.clientModified) > 0 then Timestamp(s.clientModified) else Timestamp(s.modified)
  }

  /** A local manifest entry: Anki's `mod` column, in whole seconds. */
  function LocalStamps(mod: int): Stamps {
    Stamps(None, Some(mod * SECOND))
  }

  function ServerStamps(modifiedAt: int, clientModifiedAt: int): Stamps {
    Stamps(Some(clientModifiedAt), Some(modifiedAt))
  }

  function NewestSide(local: Stamps, server: Stamps, utcNow: Option<int>): Option<Winner> {
    var localTime0 := ModifiedTimestamp(local);
    var serverTime0 := ModifiedTimestamp(server);
    var reference := Timestamp(utcNow);
    var ceiling := reference + MAX_FUTURE_SKEW;
    var localIsFuture := reference > 0 && localTime0 > ceiling;
    var localTime := if localIsFuture then 0 else localTime0;
    var serverTime :=
      if reference > 0 && serverTime0 > ceiling then
        var receipt := Timestamp(server.modified);
        if receipt <= ceiling then receipt else 0
      else serverTime0;
    if localIsFuture && serverTime > 0 then Some(Server)
    else if localTime == 0 || serverTime == 0 then None
    else if localTime - serverTime < TIMESTAMP_RESOLUTION && serverTime - localTime < TIMESTAMP_RESOLUTION then None
    else if localTime > serverTime then Some(Local)
    else Some(Server)
  }

  /** Both times are known and neither is ahead of the reference clock by more than the skew. */
  predicate Plausible(local: Stamps, server: Stamps, utcNow: Option<int>) {
    && ModifiedTimestamp(local) > 0 && ModifiedTimestamp(server) > 0
    && (Timestamp(utcNow) > 0 ==>
        ModifiedTimestamp(local) <= Timestamp(utcNow) + MAX_FUTURE_SKEW
        && ModifiedTimestamp(server) <= Timestamp(utcNow) + MAX_FUTURE_SKEW)
  }

  /**
   * Between plausible clocks a second decides, in either direction; an implausibly
   * late local clock loses to any known server time; and nothing else wins.
   */
  lemma OneSecondDecides(local: Stamps, server: Stamps, utcNow: Option<int>)
    requires ModifiedTimestamp(local) > 0 && ModifiedTimestamp(server) > 0
    ensures Plausible(local, server, utcNow) ==>
      var l, s := ModifiedTimestamp(local), ModifiedTimestamp(server);
      && (NewestSide(local, server, utcNow) == Some(Local) <==> l >= s + SECOND)
      && (NewestSide(local, server, utcNow) == Some(Server) <==> s >= l + SECOND)
    ensures Timestamp(utcNow) > 0 && ModifiedTimestamp(local) > Timestamp(utcNow) + MAX_FUTURE_SKEW ==>
      NewestSide(local, server, utcNow) in {None, Some(Server)}
    ensures Plausible(local, server, utcNow) ==>
      (NewestSide(local, server, utcNow) == Some(Local) <==> NewestSide(server, local, utcNow) == Some(Server))
  {
  }

  /**
   * Who wins, for every pair of times.  A row's time is its source time, or its
   * receipt time if the source time is unknown or more than five minutes ahead; a
   * copy more than five minutes ahead loses to any such time, and otherwise a second
   * decides.
   */
  lemma WinnerIff(mod: int, modifiedAt: int, clientModifiedAt: int, now: int)
    requires 0 < now
    ensures var winner := NewestSide(LocalStamps(mod), ServerStamps(modifiedAt, clientModifiedAt), Some(now));
      var copy, latest := mod * 1_000_000, now + 300 * 1_000_000;
      var row := if 0 < clientModifiedAt <= latest then clientModifiedAt else modifiedAt;
      && (winner == Some(Server) <==> 0 < copy && 0 < row <= latest && (copy > latest || row - copy >= 1_000_000))
      && (winner == Some(Local) <==> 0 < copy <= latest && 0 < row <= latest && copy - row >= 1_000_000)
  {
  }

  /** The `mod` a pull writes; `wallClock` is read only when no time is known. */
  function SourceModifiedSeconds(record: Stamps, wallClock: int): int {
    var source := ModifiedTimestamp(record);
    var receipt := Timestamp(record.modified);
    var chosen := if receipt > 0 && source > receipt + MAX_FUTURE_SKEW then receipt else source;
    if chosen != 0 then chosen / SECOND else wallClock
  }

  /** A pull stores the source time in whole seconds, or the receipt time if the source time is unknown or too late for it. */
  lemma PulledSeconds(modifiedAt: int, clientModifiedAt: int, wallClock: int)
    requires 0 < modifiedAt
    ensures SourceModifiedSeconds(ServerStamps(modifiedAt, clientModifiedAt), wallClock)
         == (if 0 < clientModifiedAt <= modifiedAt + 300 * 1_000_000 then clientModifiedAt else modifiedAt) / 1_000_000
  {
  }

  // ---------------------------------------------------------- no ping-pong --

  /** What every server write establishes about the two times of a row. */
  predicate ClockBounded(modifiedAt: int, clientModifiedAt: int) {
    clientModifiedAt <= modifiedAt + MAX_FUTURE_CLOCK_SKEW
  }

  /** Both sides of one resource agree for good: no later clock makes either win. */
  ghost predicate Settled(mod: int, modifiedAt: int, clientModifiedAt: int, from: int) {
    forall later :: later >= from ==>
      NewestSide(LocalStamps(mod), ServerStamps(modifiedAt, clientModifiedAt), Some(later)) == None
  }

  /**
   * A pull ends the exchange exactly when the row respects the server's bound: a
   * source time beyond it makes some later clock pick the server again, for ever.
   */
  lemma PullSettlesIffBounded(modifiedAt: int, clientModifiedAt: int, now: int, wallClock: int)
    requires SECOND <= modifiedAt <= now
    ensures Settled(SourceModifiedSeconds(ServerStamps(modifiedAt, clientModifiedAt), wallClock),
                    modifiedAt, clientModifiedAt, now)
       <==> ClockBounded(modifiedAt, clientModifiedAt)
  {
    var mod := SourceModifiedSeconds(ServerStamps(modifiedAt, clientModifiedAt), wallClock);
    if !ClockBounded(modifiedAt, clientModifiedAt) {
      var later := Max(now, clientModifiedAt);
      assert NewestSide(LocalStamps(mod), ServerStamps(modifiedAt, clientModifiedAt), Some(later)) != None;
    }
  }

  /**
   * Newest-wins never ping-pongs.  Whatever the client decides at manifest time
   * `now`, carrying it out leaves nothing to decide at any later clock: a pull
   * stores a second that ties with the row, and a push is neither clamped nor
   * older than the row, so the server stores the client's own time.
   */
  lemma NewestWinsSettles(mod: nat, modifiedAt: int, clientModifiedAt: int, now: int, pushedAt: int, wallClock: int)
    requires SECOND <= modifiedAt <= now <= pushedAt
    requires ClockBounded(modifiedAt, clientModifiedAt)
    ensures var winner := NewestSide(LocalStamps(mod), ServerStamps(modifiedAt, clientModifiedAt), Some(now));
      match winner
      case None => Settled(mod, modifiedAt, clientModifiedAt, now)
      case Some(Server) =>
        Settled(SourceModifiedSeconds(ServerStamps(modifiedAt, clientModifiedAt), wallClock),
                modifiedAt, clientModifiedAt, now)
      case Some(Local) =>
        var stored := UtcWriteTime(pushedAt, mod * SECOND);
        && stored == mod * SECOND
        && clientModifiedAt <= stored
        && ClockBounded(pushedAt, stored)
        && Settled(mod, pushedAt, stored, pushedAt)
  {
    PullSettlesIffBounded(modifiedAt, clientModifiedAt, now, wallClock);
  }
}
