// Newest-wins across any number of clients: one card (or guarded resource) on
// the server, one copy in each collection, and passes in any order.

module Fleet {
  import opened Prelude
  import opened Clock

  /** The row's two times and each collection's `mod`. */
  datatype World = World(modifiedAt: int, clientModifiedAt: int, mods: seq<nat>)

  /** One client's pass: the manifest is read at `planned`, a push arrives at `pushed`. */
  datatype Visit = Visit(client: nat, planned: int, pushed: int, wallClock: nat)

  function Decision(w: World, v: Visit): Option<Winner>
    requires v.client < |w.mods|
  {
    NewestSide(LocalStamps(w.mods[v.client]), ServerStamps(w.modifiedAt, w.clientModifiedAt), Some(v.planned))
  }

  function Pulled(w: World, wallClock: nat): nat
    requires SECOND <= w.modifiedAt
  {
    SourceModifiedSeconds(ServerStamps(w.modifiedAt, w.clientModifiedAt), wallClock)
  }

  /** Read, decide, and pull or push; the server may still refuse an older push. */
  function Pass(w: World, v: Visit): World
    requires v.client < |w.mods| && SECOND <= w.modifiedAt
  {
    match Decision(w, v)
    case None => w
    case Some(Server) => w.(mods := w.mods[v.client := Pulled(w, v.wallClock)])
    case Some(Local) =>
      var at := UtcWriteTime(v.pushed, w.mods[v.client] * SECOND);
      if w.clientModifiedAt > at then w else w.(modifiedAt := v.pushed, clientModifiedAt := at)
  }

  /** Passes happen one after the other on a server clock that never runs backwards. */
  predicate InOrder(visits: seq<Visit>, from: int, clients: nat) {
    if |visits| == 0 then true
    else
      var last := visits[|visits| - 1];
      && last.client < clients && last.planned <= last.pushed
      && InOrder(visits[..|visits| - 1], from, clients)
      && End(visits[..|visits| - 1], from) <= last.planned
  }

  function End(visits: seq<Visit>, from: int): int {
    if |visits| == 0 then from else visits[|visits| - 1].pushed
  }

  predicate Good(w: World, now: int) {
    SECOND <= w.modifiedAt <= now && ClockBounded(w.modifiedAt, w.clientModifiedAt)
  }

  function Passes(w: World, visits: seq<Visit>, from: int): (w': World)
    requires Good(w, from) && InOrder(visits, from, |w.mods|)
    ensures Good(w', End(visits, from)) && |w'.mods| == |w.mods|
  {
    if |visits| == 0 then w else Pass(Passes(w, visits[..|visits| - 1], from), visits[|visits| - 1])
  }

  /** The source time clients see in the row. */
  function RowTime(w: World): nat {
    ModifiedTimestamp(ServerStamps(w.modifiedAt, w.clientModifiedAt))
  }

  /** The row is not outranked by this client's copy. */
  predicate Dominated(w: World, i: nat)
    requires i < |w.mods|
  {
    w.mods[i] * SECOND - RowTime(w) < TIMESTAMP_RESOLUTION
  }

  ghost predicate Quiet(w: World, i: nat, from: int)
    requires i < |w.mods|
  {
    Settled(w.mods[i], w.modifiedAt, w.clientModifiedAt, from)
  }

  /** A pass leaves its own client dominated and no other one undominated. */
  lemma PassDominates(w: World, v: Visit, i: nat)
    requires i < |w.mods| && v.client < |w.mods| && Good(w, v.planned) && v.planned <= v.pushed
    requires i == v.client || Dominated(w, i)
    ensures Dominated(Pass(w, v), i)
  {
  }

  /** Once dominated, a client never changes the row, and its next pass quiets it. */
  lemma PassQuiets(w: World, v: Visit)
    requires v.client < |w.mods| && Good(w, v.planned) && v.planned <= v.pushed
    requires Dominated(w, v.client)
    ensures Pass(w, v) == w.(mods := Pass(w, v).mods)
    ensures Quiet(Pass(w, v), v.client, v.planned)
  {
    NewestWinsSettles(w.mods[v.client], w.modifiedAt, w.clientModifiedAt, v.planned, v.pushed, v.wallClock);
  }

  ghost predicate Visited(visits: seq<Visit>, i: nat) {
    exists v <- visits :: v.client == i
  }

  lemma {:induction false} RoundDominates(w: World, visits: seq<Visit>, from: int, i: nat)
    requires Good(w, from) && InOrder(visits, from, |w.mods|) && i < |w.mods|
    requires Visited(visits, i) || Dominated(w, i)
    ensures Dominated(Passes(w, visits, from), i)
  {
    if |visits| > 0 {
      var before, last := visits[..|visits| - 1], visits[|visits| - 1];
      if last.client != i {
        RoundDominates(w, before, from, i);
      }
      PassDominates(Passes(w, before, from), last, i);
    }
  }

  lemma GoodLater(w: World, now: int, later: int)
    requires Good(w, now) && now <= later
    ensures Good(w, later)
  {
  }

  lemma QuietLater(w: World, i: nat, from: int, later: int)
    requires i < |w.mods| && Quiet(w, i, from) && from <= later
    ensures Quiet(w, i, later)
  {
  }

  /** Another client's pass that leaves the row alone leaves this client as it was. */
  lemma OthersStayQuiet(w: World, v: Visit, i: nat, from: int)
    requires i < |w.mods| && v.client < |w.mods| && v.client != i && Good(w, v.planned)
    requires Pass(w, v) == w.(mods := Pass(w, v).mods) && Quiet(w, i, from)
    ensures |Pass(w, v).mods| == |w.mods| && Quiet(Pass(w, v), i, from)
  {
  }

  /** A second round changes no row and leaves every visited client quiet. */
  lemma {:induction false} RoundQuiets(w: World, visits: seq<Visit>, from: int, i: nat)
    requires Good(w, from) && InOrder(visits, from, |w.mods|) && i < |w.mods|
    requires forall j :: 0 <= j < |w.mods| ==> Dominated(w, j)
    requires Visited(visits, i) || Quiet(w, i, from)
    ensures var w' := Passes(w, visits, from);
      w' == w.(mods := w'.mods) && Quiet(w', i, End(visits, from))
  {
    RowStays(w, visits, from);
    hide Good;
    hide Pass;
    hide Dominated;
    hide Quiet;
    if |visits| > 0 {
      var before, last := visits[..|visits| - 1], visits[|visits| - 1];
      var w1 := Passes(w, before, from);
      RoundDominates(w, before, from, last.client);
      GoodLater(w1, End(before, from), last.planned);
      PassQuiets(w1, last);
      if last.client != i {
        assert Visited(visits, i) ==> Visited(before, i);
        RoundQuiets(w, before, from, i);
        OthersStayQuiet(w1, last, i, End(before, from));
        QuietLater(Pass(w1, last), i, End(before, from), last.pushed);
      } else {
        QuietLater(Pass(w1, last), i, last.planned, last.pushed);
      }
    }
  }

  lemma {:induction false} RowStays(w: World, visits: seq<Visit>, from: int)
    requires Good(w, from) && InOrder(visits, from, |w.mods|)
    requires forall j :: 0 <= j < |w.mods| ==> Dominated(w, j)
    ensures Passes(w, visits, from) == w.(mods := Passes(w, visits, from).mods)
  {
    if |visits| > 0 {
      var before, last := visits[..|visits| - 1], visits[|visits| - 1];
      RowStays(w, before, from);
      RoundDominates(w, before, from, last.client);
      PassQuiets(Passes(w, before, from), last);
    }
  }

  /**
   * However many clients there are and in whatever order they pass: once every
   * one has passed, and then every one has passed again, none ever pulls or
   * pushes again, at any later clock.
   */
  lemma FleetSettles(w: World, first: seq<Visit>, second: seq<Visit>, from: int, i: nat)
    requires Good(w, from) && InOrder(first, from, |w.mods|) && InOrder(second, End(first, from), |w.mods|)
    requires forall j: nat :: j < |w.mods| ==> Visited(first, j) && Visited(second, j)
    requires i < |w.mods|
    ensures Quiet(Passes(Passes(w, first, from), second, End(first, from)), i, End(second, End(first, from)))
  {
    var w1 := Passes(w, first, from);
    forall j: nat | j < |w.mods|
      ensures Dominated(w1, j)
    {
      RoundDominates(w, first, from, j);
    }
    RoundQuiets(w1, second, End(first, from), i);
  }

  // ------------------------------------------------------------ what the copies say --

  /** Which version of the resource the row and each copy hold. */
  datatype Versions = Versions(row: int, copies: seq<int>)

  function Carried(c: Versions, w: World, v: Visit): Versions
    requires v.client < |w.mods| == |c.copies|
  {
    match Decision(w, v)
    case None => c
    case Some(Server) => c.(copies := c.copies[v.client := c.row])
    case Some(Local) =>
      if w.clientModifiedAt > UtcWriteTime(v.pushed, w.mods[v.client] * SECOND) then c else c.(row := c.copies[v.client])
  }

  function CarriedAll(c: Versions, w: World, visits: seq<Visit>, from: int): (c': Versions)
    requires Good(w, from) && InOrder(visits, from, |w.mods|) && |c.copies| == |w.mods|
    ensures |c'.copies| == |c.copies|
  {
    if |visits| == 0 then c
    else
      var before := visits[..|visits| - 1];
      Carried(CarriedAll(c, w, before, from), Passes(w, before, from), visits[|visits| - 1])
  }

  predicate OneSecondApart(s: int, t: int) {
    s - t >= SECOND || t - s >= SECOND
  }

  /** All times are known, and different versions were made at least a second apart. */
  ghost predicate Separated(c: Versions, w: World) {
    && |c.copies| == |w.mods| && RowTime(w) >= SECOND && (forall i :: 0 <= i < |w.mods| ==> w.mods[i] > 0)
    && (forall i :: 0 <= i < |w.mods| && c.copies[i] != c.row ==> OneSecondApart(w.mods[i] * SECOND, RowTime(w)))
    && (forall i, j :: 0 <= i < |w.mods| && 0 <= j < |w.mods| && c.copies[i] != c.copies[j] ==>
          OneSecondApart(w.mods[i] * SECOND, w.mods[j] * SECOND))
  }

  lemma PulledTime(w: World, now: int, wallClock: nat)
    requires Good(w, now)
    ensures Pulled(w, wallClock) == RowTime(w) / SECOND && RowTime(w) >= 1
    ensures forall m: nat :: OneSecondApart(m * SECOND, RowTime(w)) ==> OneSecondApart(m * SECOND, Pulled(w, wallClock) * SECOND)
  {
  }

  /** A pass keeps versions apart and leaves its own client with the row's version. */
  lemma PassAgrees(c: Versions, w: World, v: Visit)
    requires v.client < |w.mods| && Good(w, v.planned) && v.planned <= v.pushed && Separated(c, w)
    ensures Separated(Carried(c, w, v), Pass(w, v))
    ensures Carried(c, w, v).copies[v.client] == Carried(c, w, v).row
  {
    PulledTime(w, v.planned, v.wallClock);
    NewestWinsSettles(w.mods[v.client], w.modifiedAt, w.clientModifiedAt, v.planned, v.pushed, v.wallClock);
  }

  /** A dominated client never pushes. */
  lemma DominatedNeverPushes(c: Versions, w: World, v: Visit)
    requires v.client < |w.mods| == |c.copies| && Good(w, v.planned) && Dominated(w, v.client)
    ensures Carried(c, w, v).row == c.row
    ensures forall j :: 0 <= j < |c.copies| && c.copies[j] == c.row ==> Carried(c, w, v).copies[j] == c.row
  {
  }

  lemma {:induction false} RoundStaysSeparated(c: Versions, w: World, visits: seq<Visit>, from: int)
    requires Good(w, from) && InOrder(visits, from, |w.mods|) && Separated(c, w)
    ensures Separated(CarriedAll(c, w, visits, from), Passes(w, visits, from))
  {
    if |visits| > 0 {
      var before := visits[..|visits| - 1];
      RoundStaysSeparated(c, w, before, from);
      PassAgrees(CarriedAll(c, w, before, from), Passes(w, before, from), visits[|visits| - 1]);
    }
  }

  lemma StepSpreadsRow(c: Versions, w: World, v: Visit, i: nat)
    requires v.client < |w.mods| && Good(w, v.planned) && v.planned <= v.pushed && Separated(c, w)
    requires Dominated(w, v.client) && i < |w.mods|
    ensures Carried(c, w, v).row == c.row
    ensures v.client == i || c.copies[i] == c.row ==> Carried(c, w, v).copies[i] == c.row
  {
    DominatedNeverPushes(c, w, v);
    PassAgrees(c, w, v);
    hide Carried;
  }

  /** While nobody outranks the row, its version stays and every visited client takes it. */
  lemma {:induction false} RoundSpreadsRow(c: Versions, w: World, visits: seq<Visit>, from: int, i: nat)
    requires Good(w, from) && InOrder(visits, from, |w.mods|) && Separated(c, w) && i < |w.mods|
    requires forall j :: 0 <= j < |w.mods| ==> Dominated(w, j)
    ensures CarriedAll(c, w, visits, from).row == c.row
    ensures Visited(visits, i) ==> CarriedAll(c, w, visits, from).copies[i] == c.row
  {
    hide Good;
    hide Pass;
    hide Carried;
    hide Dominated;
    if |visits| > 0 {
      var before, last := visits[..|visits| - 1], visits[|visits| - 1];
      var c1, w1 := CarriedAll(c, w, before, from), Passes(w, before, from);
      RoundSpreadsRow(c, w, before, from, i);
      RoundStaysSeparated(c, w, before, from);
      RoundDominates(w, before, from, last.client);
      GoodLater(w1, End(before, from), last.planned);
      StepSpreadsRow(c1, w1, last, i);
      assert Visited(visits, i) ==> last.client == i || Visited(before, i);
    }
  }

  /**
   * Newest-wins converges in content: when different versions were made at least a
   * second apart, two rounds of passes in any order leave every client with the
   * server's version.
   */
  lemma FleetAgrees(c: Versions, w: World, first: seq<Visit>, second: seq<Visit>, from: int, i: nat)
    requires Good(w, from) && InOrder(first, from, |w.mods|) && InOrder(second, End(first, from), |w.mods|)
    requires forall j: nat :: j < |w.mods| ==> Visited(first, j) && Visited(second, j)
    requires Separated(c, w) && i < |w.mods|
    ensures var c1 := CarriedAll(c, w, first, from);
      var c2 := CarriedAll(c1, Passes(w, first, from), second, End(first, from));
      c2.copies[i] == c2.row
  {
    forall j: nat | j < |w.mods|
      ensures Dominated(Passes(w, first, from), j)
    {
      RoundDominates(w, first, from, j);
    }
    RoundStaysSeparated(c, w, first, from);
    RoundSpreadsRow(CarriedAll(c, w, first, from), Passes(w, first, from), second, End(first, from), i);
  }

  // --------------------------------------------------- when two versions never meet --

  /** The copy's time is known, and a second from the row's or beyond the ceiling of the pass. */
  predicate Reconcilable(w: World, i: nat, planned: int)
    requires i < |w.mods|
  {
    w.mods[i] > 0 && (OneSecondApart(w.mods[i] * SECOND, RowTime(w)) || w.mods[i] * SECOND > planned + MAX_FUTURE_SKEW)
  }

  /** The pass decides for one side exactly then; otherwise no later pass ever does. */
  lemma UndecidedIffTooClose(w: World, v: Visit)
    requires v.client < |w.mods| && Good(w, v.planned) && v.planned <= v.pushed
    ensures Decision(w, v) != None <==> Reconcilable(w, v.client, v.planned)
    ensures Quiet(w, v.client, v.planned) <==> !Reconcilable(w, v.client, v.planned)
  {
    if Reconcilable(w, v.client, v.planned) {
      assert NewestSide(LocalStamps(w.mods[v.client]), ServerStamps(w.modifiedAt, w.clientModifiedAt), Some(v.planned)) != None;
    }
  }

  /**
   * A pass gives differing versions of one client and the row a common one if and
   * only if they are reconcilable; if not, it moves nothing and neither does any
   * later pass.  An implausibly late copy is always replaced by the row.
   */
  lemma PassReconcilesIff(c: Versions, w: World, v: Visit)
    requires v.client < |w.mods| == |c.copies| && Good(w, v.planned) && v.planned <= v.pushed
    requires c.copies[v.client] != c.row
    ensures var c' := Carried(c, w, v);
      c'.copies[v.client] == c'.row <==> Reconcilable(w, v.client, v.planned)
    ensures !Reconcilable(w, v.client, v.planned) ==>
      Pass(w, v) == w && Carried(c, w, v) == c && Quiet(w, v.client, v.planned)
    ensures w.mods[v.client] * SECOND > v.planned + MAX_FUTURE_SKEW ==>
      Carried(c, w, v) == c.(copies := c.copies[v.client := c.row])
  {
    UndecidedIffTooClose(w, v);
    NewestWinsSettles(w.mods[v.client], w.modifiedAt, w.clientModifiedAt, v.planned, v.pushed, v.wallClock);
  }

  /** Some visit of the client finds its copy reconcilable with the row. */
  ghost predicate Meets(w: World, visits: seq<Visit>, i: nat)
    requires i < |w.mods|
  {
    exists v <- visits :: v.client == i && Reconcilable(w, i, v.planned)
  }

  /** One more visit, when the row is not outranked and client `i` was not yet reconciled. */
  lemma MeetingStep(c: Versions, w: World, v: Visit, i: nat)
    requires v.client < |w.mods| == |c.copies| && Good(w, v.planned) && v.planned <= v.pushed
    requires Dominated(w, v.client) && i < |w.mods|
    ensures Carried(c, w, v).row == c.row && |Carried(c, w, v).copies| == |c.copies|
    ensures c.copies[i] == c.row ==> Carried(c, w, v).copies[i] == c.row
    ensures v.client == i && Reconcilable(w, i, v.planned) ==> Carried(c, w, v).copies[i] == c.row
    ensures v.client != i || !Reconcilable(w, i, v.planned) ==>
      Carried(c, w, v).copies[i] == c.copies[i] && Pass(w, v).mods[i] == w.mods[i]
  {
    UndecidedIffTooClose(w, v);
    PassQuiets(w, v);
    hide Quiet;
  }

  lemma {:induction false} CopyMeetsRow(c: Versions, w: World, visits: seq<Visit>, from: int, i: nat)
    requires Good(w, from) && InOrder(visits, from, |w.mods|) && |c.copies| == |w.mods| && i < |w.mods|
    requires forall j :: 0 <= j < |w.mods| ==> Dominated(w, j)
    ensures CarriedAll(c, w, visits, from).row == c.row
    ensures c.copies[i] == c.row || Meets(w, visits, i) ==> CarriedAll(c, w, visits, from).copies[i] == c.row
    ensures !Meets(w, visits, i) ==>
      CarriedAll(c, w, visits, from).copies[i] == c.copies[i] && Passes(w, visits, from).mods[i] == w.mods[i]
  {
    if |visits| > 0 {
      var before, last := visits[..|visits| - 1], visits[|visits| - 1];
      var c1, w1 := CarriedAll(c, w, before, from), Passes(w, before, from);
      CopyMeetsRow(c, w, before, from, i);
      RowStays(w, before, from);
      RoundDominates(w, before, from, last.client);
      GoodLater(w1, End(before, from), last.planned);
      MeetingStep(c1, w1, last, i);
      hide Good;
      hide Pass;
      hide Carried;
      hide Dominated;
      assert Meets(w, visits, i) <==> Meets(w, before, i) || (last.client == i && Reconcilable(w, i, last.planned));
    }
  }

  lemma {:induction false} PlannedLater(visits: seq<Visit>, from: int, clients: nat)
    requires InOrder(visits, from, clients)
    ensures from <= End(visits, from) && forall v <- visits :: from <= v.planned
  {
    if |visits| > 0 {
      PlannedLater(visits[..|visits| - 1], from, clients);
    }
  }

  /**
   * Once every client has passed, the exact condition for agreement: after any
   * further passes a client holds the row's version if and only if it held it
   * already, or one of its visits found its copy reconcilable.  A copy that is not
   * reconcilable now stays apart from the row through every later run of passes.
   */
  lemma FleetAgreesIff(c: Versions, w: World, first: seq<Visit>, later: seq<Visit>, from: int, i: nat)
    requires Good(w, from) && InOrder(first, from, |w.mods|) && InOrder(later, End(first, from), |w.mods|)
    requires |c.copies| == |w.mods| && i < |w.mods| && forall j: nat :: j < |w.mods| ==> Visited(first, j)
    ensures var c1, w1 := CarriedAll(c, w, first, from), Passes(w, first, from);
      var c2 := CarriedAll(c1, w1, later, End(first, from));
      && c2.row == c1.row
      && (c2.copies[i] == c2.row <==> c1.copies[i] == c1.row || Meets(w1, later, i))
      && (!Reconcilable(w1, i, End(first, from)) ==> c2.copies[i] == c1.copies[i])
  {
    forall j: nat | j < |w.mods|
      ensures Dominated(Passes(w, first, from), j)
    {
      RoundDominates(w, first, from, j);
    }
    CopyMeetsRow(CarriedAll(c, w, first, from), Passes(w, first, from), later, End(first, from), i);
    PlannedLater(later, End(first, from), |w.mods|);
  }
}
