// Media transfer planning and the two bounded worker pools (media_sync.py).

module Media {
  import opened Prelude

  const WORKERS: nat := 50

  /** Media names held by one side: the server's table or the local directory. */
  class Store {
    var files: set<string>

    constructor (names: set<string>)
      ensures files == names
    {
      files := names;
    }
  }

  /** What became of one worker. */
  datatype Fate = Done | Missing | Failed

  datatype Result = Synced(uploaded: nat, downloaded: nat) | Aborted

  /** Names that differ in case only are one media file. */
  function Keys(fold: string -> string, files: set<string>): set<string> {
    set f | f in files :: fold(f)
  }

  // ------------------------------------------------------------------- media names --

  /** Python's str.strip also drops the four separators below the space. */
  predicate IsStripped(c: char) {
    IsUnicodeSpace(c) || 0x1c <= c as int <= 0x1f
  }

  function Strip(s: string): string {
    if s != "" && IsStripped(s[0]) then Strip(s[1..])
    else if s != "" && IsStripped(s[|s| - 1]) then Strip(s[..|s| - 1])
    else s
  }

  /** HTML may percent-encode spaces. */
  function Unescape(s: string): string {
    if |s| >= 3 && s[..3] == "%20" then " " + Unescape(s[3..])
    else if s == "" then ""
    else [s[0]] + Unescape(s[1..])
  }

  /** A flat file name, or "" for a link, a path or nothing. */
  function Clean(name: string): string {
    var s := Unescape(Strip(name));
    if "http://" <= s || "https://" <= s || "data:" <= s || '/' in s || '\\' in s || s == "." || s == ".." then "" else s
  }

  /** What strip() removes: at both ends every white space, or separator below the space, and nothing else. */
  lemma {:induction false} StripTrims(s: string) returns (i: nat, j: nat)
    ensures i <= j <= |s| && Strip(s) == s[i..j]
    ensures forall k :: 0 <= k < i || j <= k < |s| ==> IsUnicodeSpace(s[k]) || 0x1c <= s[k] as int <= 0x1f
    ensures i < j ==> !IsUnicodeSpace(s[i]) && !(0x1c <= s[i] as int <= 0x1f)
    ensures i < j ==> !IsUnicodeSpace(s[j - 1]) && !(0x1c <= s[j - 1] as int <= 0x1f)
  {
    if s != "" && IsStripped(s[0]) {
      i, j := StripTrims(s[1..]);
      assert s[1..][i..j] == s[i + 1..j + 1];
      assert forall k :: 1 <= k < |s| ==> s[k] == s[1..][k - 1];
      i, j := i + 1, j + 1;
    } else if s != "" && IsStripped(s[|s| - 1]) {
      i, j := StripTrims(s[..|s| - 1]);
      assert s[..|s| - 1][i..j] == s[i..j];
    } else {
      i, j := 0, |s|;
    }
  }

  /** Text without a percent sign stays. */
  lemma {:induction false} UnescapeKeeps(a: string, b: string)
    requires '%' !in a
    ensures Unescape(a + b) == a + Unescape(b)
  {
    if a == "" {
      assert a + b == b;
    } else {
      assert a[0] != '%' && '%' !in a[1..];
      UnescapeKeeps(a[1..], b);
      assert (a + b)[1..] == a[1..] + b && (a + b)[0] == a[0];
      assert |a + b| >= 3 ==> (a + b)[..3][0] == a[0];
      assert [a[0]] + (a[1..] + Unescape(b)) == a + Unescape(b);
    }
  }

  /** An escaped space is replaced, and a lone percent sign kept. */
  lemma UnescapeReplaces(b: string)
    ensures Unescape("%20" + b) == " " + Unescape(b)
    ensures !("20" <= b) ==> Unescape("%" + b) == "%" + Unescape(b)
  {
    assert ("%20" + b)[3..] == b && ("%20" + b)[..3] == "%20";
    assert ("%" + b)[1..] == b;
    if |b| >= 2 && ("%" + b)[..3] == "%20" {
      assert b[..2] == ("%" + b)[..3][1..];
    }
  }

  /** A media name is a plain file name: no path, no link, no data; every other trimmed name is kept. */
  lemma CleanIsFlat(name: string)
    ensures var s := Unescape(Strip(name));
      if s == "" || '/' in s || '\\' in s || s in {".", ".."} || (|s| >= 5 && s[..5] == "data:") then Clean(name) == "" else Clean(name) == s
  {
    var s := Unescape(Strip(name));
    if "http://" <= s { assert s[5] == '/'; }
    if "https://" <= s { assert s[6] == '/'; }
  }

  // --------------------------------------------------------------- the pool state --

  function Below(n: nat): (s: set<nat>)
    ensures forall i: nat :: i in s <==> i < n
  {
    if n == 0 then {} else Below(n - 1) + {n - 1}
  }

  /**
   * Of `n` planned transfers the first `next` were submitted, each once: every one
   * is running, returned but not yet handled, or finished.  At most fifty are out,
   * and exactly fifty as long as something is left to submit.
   */
  ghost predicate Pool(n: nat, next: nat, running: set<nat>, returned: set<nat>, finished: set<nat>) {
    && next <= n
    && running + returned + finished == Below(next)
    && running !! returned !! finished
    && |running| + |returned| <= WORKERS
    && (next < n ==> |running| + |returned| == WORKERS)
  }

  lemma PoolStarts(n: nat, first: nat)
    requires first == if n < WORKERS then n else WORKERS
    ensures Pool(n, first, Below(first), {}, {})
  {
    BelowSize(first);
  }

  lemma {:induction false} BelowSize(n: nat)
    ensures |Below(n)| == n
  {
    if n > 0 {
      BelowSize(n - 1);
    }
  }

  /** Workers return; nothing is submitted yet. */
  lemma PoolReturns(n: nat, next: nat, running: set<nat>, finished: set<nat>, completed: set<nat>)
    requires Pool(n, next, running, {}, finished) && completed <= running
    ensures Pool(n, next, running - completed, completed, finished)
    ensures finished <= Below(n) && completed !! finished && completed <= Below(n)
  {
  }

  /** Handling one returned worker submits the next transfer, if any. */
  lemma PoolAdvances(n: nat, next: nat, running: set<nat>, returned: set<nat>, finished: set<nat>, i: nat)
    requires Pool(n, next, running, returned, finished) && i in returned
    ensures i < n && i !in finished && next <= n
    ensures next < n ==> Pool(n, next + 1, running + {next}, returned - {i}, finished + {i})
    ensures next == n ==> Pool(n, next, running, returned - {i}, finished + {i})
  {
    assert next !in running;
    assert |returned - {i}| == |returned| - 1;
    if next < n {
      assert |running + {next}| == |running| + 1;
    }
  }

  /** An empty pool has nothing left to submit: the plan is exhausted. */
  lemma PoolDrains(n: nat, next: nat, finished: set<nat>)
    requires Pool(n, next, {}, {}, finished)
    ensures next == n && finished == Below(n)
  {
  }

  /** Some non-empty set of running workers, as FIRST_COMPLETED returns it. */
  method Wait(running: set<nat>) returns (completed: set<nat>)
    requires running != {}
    ensures completed != {} && completed <= running
  {
    completed :| completed != {} && completed <= running;
  }

  ghost predicate NoneFailed(indices: set<nat>, fate: nat -> Fate) {
    forall i :: i in indices ==> fate(i) != Failed
  }

  function Names(plan: seq<string>, indices: set<nat>): set<string> {
    set i | i in indices && i < |plan| :: plan[i]
  }

  lemma NamesGrow(plan: seq<string>, indices: set<nat>, i: nat)
    requires i < |plan|
    ensures Names(plan, indices + {i}) == Names(plan, indices) + {plan[i]}
  {
  }

  /** What has been recorded of a plan so far: one file per finished upload, and no failure. */
  ghost predicate Recorded(was: set<string>, plan: seq<string>, fate: nat -> Fate, finished: set<nat>, uploaded: nat, files: set<string>) {
    files == was + Names(plan, finished) && uploaded == |finished| && NoneFailed(finished, fate)
  }

  lemma RecordOne(was: set<string>, plan: seq<string>, fate: nat -> Fate, finished: set<nat>, uploaded: nat, files: set<string>, i: nat)
    requires Recorded(was, plan, fate, finished, uploaded, files)
    requires i < |plan| && i !in finished && fate(i) != Failed
    ensures Recorded(was, plan, fate, finished + {i}, uploaded + 1, files + {plan[i]})
  {
    NamesGrow(plan, finished, i);
  }

  lemma RecordedNone(files: set<string>, plan: seq<string>, fate: nat -> Fate)
    ensures Recorded(files, plan, fate, {}, 0, files)
  {
    assert Names(plan, {}) == {};
  }

  lemma RecordedMeans(was: set<string>, plan: seq<string>, fate: nat -> Fate, finished: set<nat>, uploaded: nat, files: set<string>)
    requires Recorded(was, plan, fate, finished, uploaded, files)
    ensures files == was + Names(plan, finished) && uploaded == |finished|
    ensures forall i :: i in finished ==> fate(i) != Failed
  {
  }

  /** The loop over one batch of returned uploads: record each and submit one more. */
  /** One element moves from the second part of a set to the first. */
  lemma MovesOver(all: set<nat>, done: set<nat>, left: set<nat>, i: nat)
    requires done <= all <= done + left && left <= all && i in left
    ensures done + {i} <= all <= done + {i} + (left - {i}) && left - {i} <= all
  {
  }

  method HandleUploads(server: Store, plan: seq<string>, fate: nat -> Fate, ghost was: set<string>,
                       running0: set<nat>, returned0: set<nat>, next0: nat, uploaded0: nat, ghost finished0: set<nat>)
    returns (running: set<nat>, next: nat, uploaded: nat, ok: bool, ghost finished: set<nat>)
    requires Pool(|plan|, next0, running0, returned0, finished0)
    requires Recorded(was, plan, fate, finished0, uploaded0, server.files)
    modifies server
    ensures Recorded(was, plan, fate, finished, uploaded, server.files)
    ensures finished <= finished0 + returned0
    ensures ok ==> Pool(|plan|, next, running, {}, finished) && finished == finished0 + returned0
    ensures !ok ==> exists i :: i in returned0 && fate(i) == Failed
  {
    var returned := returned0;
    running, next, uploaded, finished := running0, next0, uploaded0, finished0;
    ghost var all := finished0 + returned0;
    hide *;
    while returned != {}
      invariant returned <= returned0 && returned <= all && finished <= all <= finished + returned
      invariant Pool(|plan|, next, running, returned, finished)
      invariant Recorded(was, plan, fate, finished, uploaded, server.files)
      decreases returned
    {
      var i := Pick(returned);
      PoolAdvances(|plan|, next, running, returned, finished, i);
      if fate(i) == Failed {
        return running, next, uploaded, false, finished;
      }
      RecordOne(was, plan, fate, finished, uploaded, server.files, i);
      server.files := server.files + {plan[i]};
      uploaded := uploaded + 1;
      MovesOver(all, finished, returned, i);
      returned := returned - {i};
      finished := finished + {i};
      if next < |plan| {
        running := running + {next};
        next := next + 1;
      }
    }
    ok := true;
  }

  // ------------------------------------------------------------ how many run at once --

  /** Transfer `i` had been submitted when the loop waited for the `t`-th time. */
  ghost predicate SubmittedBy(trace: seq<set<nat>>, t: nat, i: nat) {
    exists u :: 0 <= u <= t && u < |trace| && i in trace[u]
  }

  /**
   * `trace` lists what was running at each wait: never more than fifty, fewer only
   * once everything was submitted, and every finished transfer among them.
   */
  ghost predicate BoundedRun(n: nat, trace: seq<set<nat>>, finished: set<nat>) {
    && (forall t: nat :: t < |trace| ==> |trace[t]| <= 50)
    && (forall t: nat, i: nat :: t < |trace| && |trace[t]| < 50 && i < n ==> SubmittedBy(trace, t, i))
    && (forall i: nat :: i in finished ==> SubmittedBy(trace, |trace|, i))
  }

  lemma NothingRan(n: nat)
    ensures BoundedRun(n, [], {})
  {
  }

  lemma StillSubmitted(trace: seq<set<nat>>, running: set<nat>, t: nat, i: nat)
    requires SubmittedBy(trace, t, i)
    ensures SubmittedBy(trace + [running], t, i) && SubmittedBy(trace + [running], |trace| + 1, i)
  {
    var u :| 0 <= u <= t && u < |trace| && i in trace[u];
    assert (trace + [running])[u] == trace[u];
  }

  /** One more wait, after which some of the running workers may have finished. */
  lemma RunGrows(n: nat, trace: seq<set<nat>>, finished: set<nat>, next: nat, running: set<nat>, finished': set<nat>)
    requires BoundedRun(n, trace, finished) && Pool(n, next, running, {}, finished) && finished' <= finished + running
    ensures BoundedRun(n, trace + [running], finished')
  {
    var trace' := trace + [running];
    forall t: nat, i: nat | SubmittedBy(trace, t, i)
      ensures SubmittedBy(trace', t, i) && SubmittedBy(trace', |trace'|, i)
    {
      StillSubmitted(trace, running, t, i);
    }
    forall i: nat | i in running
      ensures SubmittedBy(trace', |trace|, i) && SubmittedBy(trace', |trace'|, i)
    {
      assert trace'[|trace|] == running;
    }
    hide SubmittedBy;
    forall t: nat, i: nat | t < |trace'| && |trace'[t]| < 50 && i < n
      ensures SubmittedBy(trace', t, i)
    {
      if t == |trace| {
        assert i in running + finished;
        assert i in finished ==> SubmittedBy(trace, |trace|, i);
      } else {
        assert trace'[t] == trace[t] && SubmittedBy(trace, t, i);
      }
    }
    forall i: nat | i in finished'
      ensures SubmittedBy(trace', |trace'|, i)
    {
      assert i in finished ==> SubmittedBy(trace, |trace|, i);
    }
  }

  /** Every planned upload is handled exactly once; the first failure ends the pass. */
  method UploadAll(server: Store, plan: seq<string>, fate: nat -> Fate) returns (uploaded: nat, ok: bool, ghost finished: set<nat>, ghost trace: seq<set<nat>>)
    modifies server
    ensures BoundedRun(|plan|, trace, finished)
    ensures ok <==> forall i: nat :: i < |plan| ==> fate(i) != Failed
    ensures finished <= Below(|plan|) && uploaded == |finished|
    ensures server.files == old(server.files) + Names(plan, finished)
    ensures ok ==> finished == Below(|plan|) && uploaded == |plan|
  {
    hide *;
    var next: nat := if |plan| < WORKERS then |plan| else WORKERS;
    var running := Below(next);
    finished, uploaded, ok, trace := {}, 0, true, [];
    NothingRan(|plan|);
    PoolStarts(|plan|, next);
    RecordedNone(server.files, plan, fate);
    while running != {} && ok
      invariant finished <= Below(|plan|) && Recorded(old(server.files), plan, fate, finished, uploaded, server.files)
      invariant BoundedRun(|plan|, trace, finished)
      invariant ok ==> Pool(|plan|, next, running, {}, finished)
      invariant !ok ==> exists i: nat :: i < |plan| && fate(i) == Failed
      decreases ok, Below(|plan|) - finished
    {
      var returned := Wait(running);
      PoolReturns(|plan|, next, running, finished, returned);
      ghost var submitted, out, done := next, running, finished;
      running, next, uploaded, ok, finished :=
        HandleUploads(server, plan, fate, old(server.files), running - returned, returned, next, uploaded, finished);
      RunGrows(|plan|, trace, done, submitted, out, finished);
      trace := trace + [out];
    }
    RecordedMeans(old(server.files), plan, fate, finished, uploaded, server.files);
    if ok {
      PoolDrains(|plan|, next, finished);
      BelowSize(|plan|);
    }
  }

  /** What a download worker comes back with; a name that is no flat file name raises. */
  function Landing(plan: seq<string>, fate: nat -> Fate, i: nat): Fate
    requires i < |plan|
  {
    if Clean(plan[i]) == "" then Failed else fate(i)
  }

  function Landed(plan: seq<string>, fate: nat -> Fate, indices: set<nat>): set<nat> {
    set i | i in indices && i < |plan| && Landing(plan, fate, i) == Done
  }

  ghost predicate NoLandingFailed(plan: seq<string>, fate: nat -> Fate, indices: set<nat>) {
    forall i :: i in indices && i < |plan| ==> Landing(plan, fate, i) != Failed
  }

  function CleanNames(plan: seq<string>, indices: set<nat>): set<string> {
    set i | i in indices && i < |plan| :: Clean(plan[i])
  }

  /** What has been written so far: one file per finished download that was not missing. */
  ghost predicate Written(was: set<string>, plan: seq<string>, fate: nat -> Fate, finished: set<nat>, downloaded: nat, files: set<string>) {
    && files == was + CleanNames(plan, Landed(plan, fate, finished))
    && downloaded == |Landed(plan, fate, finished)| && NoLandingFailed(plan, fate, finished)
  }

  lemma WriteOne(was: set<string>, plan: seq<string>, fate: nat -> Fate, finished: set<nat>, downloaded: nat, files: set<string>, i: nat)
    requires Written(was, plan, fate, finished, downloaded, files)
    requires i < |plan| && i !in finished
    ensures Landing(plan, fate, i) == Done ==> Written(was, plan, fate, finished + {i}, downloaded + 1, files + {Clean(plan[i])})
    ensures Landing(plan, fate, i) == Missing ==> Written(was, plan, fate, finished + {i}, downloaded, files)
  {
    hide Clean;
    hide Landing;
    if Landing(plan, fate, i) == Done {
      assert Landed(plan, fate, finished + {i}) == Landed(plan, fate, finished) + {i};
    } else {
      assert Landed(plan, fate, finished + {i}) == Landed(plan, fate, finished);
    }
  }

  lemma WrittenNone(files: set<string>, plan: seq<string>, fate: nat -> Fate)
    ensures Written(files, plan, fate, {}, 0, files)
  {
    assert Landed(plan, fate, {}) == {} && CleanNames(plan, {}) == {};
  }

  lemma WrittenMeans(was: set<string>, plan: seq<string>, fate: nat -> Fate, finished: set<nat>, downloaded: nat, files: set<string>)
    requires Written(was, plan, fate, finished, downloaded, files)
    ensures files == was + CleanNames(plan, Landed(plan, fate, finished))
    ensures downloaded == |Landed(plan, fate, finished)|
    ensures forall i :: i in finished && i < |plan| ==> Landing(plan, fate, i) != Failed
  {
  }

  /** The loop over one batch of returned downloads. */
  method HandleDownloads(local: Store, plan: seq<string>, fate: nat -> Fate, ghost was: set<string>,
                         running0: set<nat>, returned0: set<nat>, next0: nat, downloaded0: nat, ghost finished0: set<nat>)
    returns (running: set<nat>, next: nat, downloaded: nat, ok: bool, ghost finished: set<nat>)
    requires Pool(|plan|, next0, running0, returned0, finished0)
    requires Written(was, plan, fate, finished0, downloaded0, local.files)
    modifies local
    ensures Written(was, plan, fate, finished, downloaded, local.files)
    ensures finished <= finished0 + returned0
    ensures ok ==> Pool(|plan|, next, running, {}, finished) && finished == finished0 + returned0
    ensures !ok ==> exists i :: i in returned0 && i < |plan| && Landing(plan, fate, i) == Failed
  {
    var returned := returned0;
    running, next, downloaded, finished := running0, next0, downloaded0, finished0;
    ghost var all := finished0 + returned0;
    hide *;
    while returned != {}
      invariant returned <= returned0 && returned <= all && finished <= all <= finished + returned
      invariant Pool(|plan|, next, running, returned, finished)
      invariant Written(was, plan, fate, finished, downloaded, local.files)
      decreases returned
    {
      var i := Pick(returned);
      PoolAdvances(|plan|, next, running, returned, finished, i);
      WriteOne(was, plan, fate, finished, downloaded, local.files, i);
      var landing := Landing(plan, fate, i);
      if landing == Failed {
        return running, next, downloaded, false, finished;
      }
      if landing == Done {
        local.files := local.files + {Clean(plan[i])};
        downloaded := downloaded + 1;
      }
      MovesOver(all, finished, returned, i);
      returned := returned - {i};
      finished := finished + {i};
      if next < |plan| {
        running := running + {next};
        next := next + 1;
      }
    }
    ok := true;
  }

  /** Every planned download is handled exactly once; a missing blob is only skipped. */
  method DownloadAll(local: Store, plan: seq<string>, fate: nat -> Fate) returns (downloaded: nat, ok: bool, ghost finished: set<nat>, ghost trace: seq<set<nat>>)
    modifies local
    ensures BoundedRun(|plan|, trace, finished)
    ensures ok <==> forall i: nat :: i < |plan| ==> Landing(plan, fate, i) != Failed
    ensures finished <= Below(|plan|) && downloaded == |Landed(plan, fate, finished)|
    ensures local.files == old(local.files) + CleanNames(plan, Landed(plan, fate, finished))
    ensures ok ==> finished == Below(|plan|)
  {
    hide *;
    var next: nat := if |plan| < WORKERS then |plan| else WORKERS;
    var running := Below(next);
    finished, downloaded, ok, trace := {}, 0, true, [];
    NothingRan(|plan|);
    PoolStarts(|plan|, next);
    WrittenNone(local.files, plan, fate);
    while running != {} && ok
      invariant finished <= Below(|plan|) && Written(old(local.files), plan, fate, finished, downloaded, local.files)
      invariant BoundedRun(|plan|, trace, finished)
      invariant ok ==> Pool(|plan|, next, running, {}, finished)
      invariant !ok ==> exists i: nat :: i < |plan| && Landing(plan, fate, i) == Failed
      decreases ok, Below(|plan|) - finished
    {
      var returned := Wait(running);
      PoolReturns(|plan|, next, running, finished, returned);
      ghost var submitted, out, done := next, running, finished;
      running, next, downloaded, ok, finished :=
        HandleDownloads(local, plan, fate, old(local.files), running - returned, returned, next, downloaded, finished);
      RunGrows(|plan|, trace, done, submitted, out, finished);
      trace := trace + [out];
    }
    WrittenMeans(old(local.files), plan, fate, finished, downloaded, local.files);
    if ok {
      PoolDrains(|plan|, next, finished);
    }
  }

  // ------------------------------------------------------------------ the plans --

  /** References the server lacks and the directory has; aliases are not merged here. */
  method PlanUploads(fold: string -> string, refs: seq<string>, serverKeys: set<string>, localKeys: set<string>)
    returns (uploads: seq<string>)
    ensures forall f :: f in uploads <==> f in refs && fold(f) !in serverKeys && fold(f) in localKeys
  {
    uploads := [];
    for i := 0 to |refs|
      invariant forall f :: f in uploads <==> f in refs[..i] && fold(f) !in serverKeys && fold(f) in localKeys
    {
      var f := refs[i];
      assert refs[..i + 1] == refs[..i] + [f];
      if fold(f) !in serverKeys && fold(f) in localKeys {
        uploads := uploads + [f];
      }
    }
    assert refs[..|refs|] == refs;
  }

  ghost predicate DistinctKeys(fold: string -> string, plan: seq<string>) {
    forall i, j :: 0 <= i < j < |plan| ==> fold(plan[i]) != fold(plan[j])
  }

  /** Referenced server files the directory lacks, one per key. */
  method PlanDownloads(fold: string -> string, listed: seq<string>, refKeys: set<string>, localKeys: set<string>)
    returns (missing: seq<string>)
    ensures DistinctKeys(fold, missing)
    ensures forall f :: f in missing ==> f in listed && fold(f) in refKeys && fold(f) !in localKeys
    ensures forall f :: f in listed && fold(f) in refKeys && fold(f) !in localKeys ==> exists g :: g in missing && fold(g) == fold(f)
  {
    missing := [];
    var scheduled := {};
    for i := 0 to |listed|
      invariant DistinctKeys(fold, missing)
      invariant forall f :: f in missing ==> f in listed && fold(f) in refKeys && fold(f) !in localKeys && fold(f) in scheduled
      invariant forall k :: k in scheduled ==> exists g :: g in missing && fold(g) == k
      invariant forall f :: f in listed[..i] && fold(f) in refKeys && fold(f) !in localKeys ==> fold(f) in scheduled
    {
      var f := listed[i];
      assert listed[..i + 1] == listed[..i] + [f];
      if fold(f) in refKeys && fold(f) !in localKeys && fold(f) !in scheduled {
        ghost var before := missing;
        forall j | 0 <= j < |missing| ensures fold(missing[j]) != fold(f) { assert missing[j] in missing; }
        scheduled := scheduled + {fold(f)};
        missing := missing + [f];
        assert forall g :: g in before ==> g in missing;
        assert f in missing;
      }
    }
    assert listed[..|listed|] == listed;
  }

  function SeqSet(s: seq<string>): set<string> {
    set f | f in s
  }

  /** Uploads and downloads are what each side lacks of the referenced files. */
  ghost predicate Planned(fold: string -> string, refs: set<string>, server: set<string>, local: set<string>,
                          uploads: seq<string>, missing: seq<string>)
  {
    && (forall f :: f in uploads <==> f in refs && fold(f) !in Keys(fold, server) && fold(f) in Keys(fold, local))
    && (forall f :: f in missing ==> f in server && fold(f) in Keys(fold, refs) && fold(f) !in Keys(fold, local))
    && (forall f :: f in server && fold(f) in Keys(fold, refs) && fold(f) !in Keys(fold, local) ==>
          exists g :: g in missing && fold(g) == fold(f))
  }

  lemma AllLand(missing: seq<string>, fate: nat -> Fate)
    requires forall i: nat :: i < |missing| ==> Landing(missing, fate, i) == Done
    ensures Landed(missing, fate, Below(|missing|)) == Below(|missing|)
  {
    hide Landing;
  }

  /** What a completed pass says of its plans and of both sides afterwards. */
  ghost predicate Completed(fold: string -> string, refs: set<string>, server: set<string>, local: set<string>,
                            uploads: seq<string>, missing: seq<string>, server': set<string>, local': set<string>)
  {
    && Planned(fold, refs, server, local, uploads, missing)
    && server' == server + Names(uploads, Below(|uploads|)) && local' == local + CleanNames(missing, Below(|missing|))
  }

  lemma CompletedIsPlanned(fold: string -> string, refs: set<string>, server: set<string>, local: set<string>,
                           uploads: seq<string>, missing: seq<string>)
    requires Planned(fold, refs, server, local, uploads, missing)
    ensures Completed(fold, refs, server, local, uploads, missing, server + Names(uploads, Below(|uploads|)),
                      local + CleanNames(missing, Below(|missing|)))
  {
  }

  /**
   * Uploads, then downloads, each through its own pool of fifty.  Whatever the
   * order in which workers return, a pass without failure ends with exactly the
   * planned uploads added on the server and every blob that was found added
   * locally, under its cleaned name.
   */
  method SyncMediaOnce(server: Store, local: Store, fold: string -> string, refs: seq<string>, listed: seq<string>,
                       upFate: nat -> Fate, downFate: nat -> Fate)
    returns (result: Result, ghost uploads: seq<string>, ghost missing: seq<string>)
    requires server != local && SeqSet(listed) == server.files
    modifies server, local
    ensures Planned(fold, SeqSet(refs), old(server.files), old(local.files), uploads, missing)
    ensures result.Aborted? <==>
      (exists i: nat :: i < |uploads| && upFate(i) == Failed) || (exists i: nat :: i < |missing| && Landing(missing, downFate, i) == Failed)
    ensures result.Synced? ==>
      && server.files == old(server.files) + Names(uploads, Below(|uploads|))
      && local.files == old(local.files) + CleanNames(missing, Landed(missing, downFate, Below(|missing|)))
      && result.uploaded == |uploads|
      && result.downloaded == |Landed(missing, downFate, Below(|missing|))|
    ensures result.Synced? && (forall i: nat :: i < |missing| ==> Landing(missing, downFate, i) == Done) ==>
      Completed(fold, SeqSet(refs), old(server.files), old(local.files), uploads, missing, server.files, local.files)
  {
    var serverKeys, localKeys, refKeys := Keys(fold, SeqSet(listed)), Keys(fold, local.files), Keys(fold, SeqSet(refs));
    var ups := PlanUploads(fold, refs, serverKeys, localKeys);
    var downs := PlanDownloads(fold, listed, refKeys, localKeys);
    uploads, missing := ups, downs;
    assert forall f :: f in listed <==> f in SeqSet(listed);
    assert forall f :: f in refs <==> f in SeqSet(refs);
    assert Planned(fold, SeqSet(refs), server.files, local.files, uploads, missing);
    hide *;
    var uploaded, ok, _, _ := UploadAll(server, ups, upFate);
    if !ok {
      return Aborted, uploads, missing;
    }
    var downloaded, ok', _, _ := DownloadAll(local, downs, downFate);
    if !ok' {
      return Aborted, uploads, missing;
    }
    result := Synced(uploaded, downloaded);
    if forall i: nat :: i < |missing| ==> Landing(missing, downFate, i) == Done {
      AllLand(missing, downFate);
      CompletedIsPlanned(fold, SeqSet(refs), old(server.files), old(local.files), uploads, missing);
    }
  }

  // ------------------------------------------------------------ both sides agree --

  lemma ServerGetsReference(fold: string -> string, refs: set<string>, server: set<string>, local: set<string>,
                            uploads: seq<string>, missing: seq<string>, server': set<string>, local': set<string>, r: string)
    requires Completed(fold, refs, server, local, uploads, missing, server', local')
    requires r in refs && fold(r) in Keys(fold, server) + Keys(fold, local)
    ensures fold(r) in Keys(fold, server')
  {
    if fold(r) in Keys(fold, server) {
      var f :| f in server && fold(f) == fold(r);
      assert f in server';
    } else {
      assert r in uploads;
      var i :| 0 <= i < |uploads| && uploads[i] == r;
      assert uploads[i] in Names(uploads, Below(|uploads|));
      assert r in server';
    }
  }

  /** Some planned download is stored under key `k`. */
  ghost predicate Lands(fold: string -> string, missing: seq<string>, k: string) {
    exists g :: g in missing && fold(Clean(g)) == k
  }

  lemma LocalKeyIff(fold: string -> string, local: set<string>, missing: seq<string>, k: string)
    ensures k in Keys(fold, local + CleanNames(missing, Below(|missing|)))
       <==> k in Keys(fold, local) || Lands(fold, missing, k)
  {
    hide Clean;
    var after := local + CleanNames(missing, Below(|missing|));
    if g :| g in missing && fold(Clean(g)) == k {
      var i :| 0 <= i < |missing| && missing[i] == g;
      assert Clean(missing[i]) in CleanNames(missing, Below(|missing|));
      assert Clean(g) in after;
    }
    if k in Keys(fold, local) {
      var f :| f in local && fold(f) == k;
      assert f in after;
    }
  }

  lemma ReferenceLandsIff(fold: string -> string, refs: set<string>, server: set<string>, local: set<string>,
                          uploads: seq<string>, missing: seq<string>, server': set<string>, local': set<string>, r: string)
    requires Completed(fold, refs, server, local, uploads, missing, server', local')
    requires r in refs && fold(r) in Keys(fold, server) + Keys(fold, local)
    ensures fold(r) in Keys(fold, local') <==> fold(r) in Keys(fold, local) || Lands(fold, missing, fold(r))
    ensures fold(r) in Keys(fold, local) || exists f :: f in missing && fold(f) == fold(r)
  {
    LocalKeyIff(fold, local, missing, fold(r));
    hide Lands;
    if fold(r) !in Keys(fold, local) {
      var f :| f in server && fold(f) == fold(r);
      assert fold(r) in Keys(fold, refs);
    }
  }

  /** The reference is on neither side, or on both afterwards. */
  ghost predicate OnBoth(fold: string -> string, server: set<string>, local: set<string>, server': set<string>, local': set<string>, r: string) {
    fold(r) in Keys(fold, server) + Keys(fold, local) ==> fold(r) in Keys(fold, server') && fold(r) in Keys(fold, local')
  }

  lemma OnBothIfLands(fold: string -> string, refs: set<string>, server: set<string>, local: set<string>,
                      uploads: seq<string>, missing: seq<string>, server': set<string>, local': set<string>, r: string)
    requires Completed(fold, refs, server, local, uploads, missing, server', local')
    requires r in refs && forall f :: f in missing ==> Lands(fold, missing, fold(f))
    ensures OnBoth(fold, server, local, server', local', r)
  {
    hide Lands;
    if fold(r) in Keys(fold, server) + Keys(fold, local) {
      ServerGetsReference(fold, refs, server, local, uploads, missing, server', local', r);
      ReferenceLandsIff(fold, refs, server, local, uploads, missing, server', local', r);
    }
  }

  lemma LandsIfOnBoth(fold: string -> string, refs: set<string>, server: set<string>, local: set<string>,
                      uploads: seq<string>, missing: seq<string>, server': set<string>, local': set<string>, f: string)
    requires Completed(fold, refs, server, local, uploads, missing, server', local')
    requires f in missing && forall r :: r in refs ==> OnBoth(fold, server, local, server', local', r)
    ensures Lands(fold, missing, fold(f))
  {
    hide Lands;
    assert f in server && fold(f) in Keys(fold, refs);
    var r :| r in refs && fold(r) == fold(f);
    assert fold(r) in Keys(fold, server);
    ReferenceLandsIff(fold, refs, server, local, uploads, missing, server', local', r);
    assert OnBoth(fold, server, local, server', local', r);
  }

  /**
   * With no failed transfer and no missing blob, every referenced key either side
   * held is on both, if and only if each planned download lands under the key it
   * was planned for; names that are already clean always do (CleanNamesLand).
   */
  lemma ReferencedMediaIsOnBothSidesIff(fold: string -> string, refs: set<string>, server: set<string>, local: set<string>,
                                        uploads: seq<string>, missing: seq<string>, server': set<string>, local': set<string>)
    requires Completed(fold, refs, server, local, uploads, missing, server', local')
    ensures (forall r :: r in refs ==> OnBoth(fold, server, local, server', local', r))
       <==> (forall f :: f in missing ==> Lands(fold, missing, fold(f)))
  {
    hide *;
    if forall f :: f in missing ==> Lands(fold, missing, fold(f)) {
      forall r | r in refs ensures OnBoth(fold, server, local, server', local', r) {
        OnBothIfLands(fold, refs, server, local, uploads, missing, server', local', r);
      }
    }
    if forall r :: r in refs ==> OnBoth(fold, server, local, server', local', r) {
      forall f | f in missing ensures Lands(fold, missing, fold(f)) {
        LandsIfOnBoth(fold, refs, server, local, uploads, missing, server', local', f);
      }
    }
  }

  /** With clean names on the server every referenced key either side held is on both. */
  lemma CleanNamesLand(fold: string -> string, refs: set<string>, server: set<string>, local: set<string>,
                       uploads: seq<string>, missing: seq<string>, server': set<string>, local': set<string>, r: string)
    requires Completed(fold, refs, server, local, uploads, missing, server', local')
    requires (forall f :: f in server ==> Clean(f) == f) && r in refs
    ensures OnBoth(fold, server, local, server', local', r)
  {
    forall f | f in missing
      ensures Lands(fold, missing, fold(f))
    {
      assert f in server;
      assert fold(Clean(f)) == fold(f);
    }
    hide *;
    OnBothIfLands(fold, refs, server, local, uploads, missing, server', local', r);
  }

  lemma EscapedSpace()
    ensures Clean("%20a") == " a" && Clean(" a") == "a"
  {
    assert Strip("%20a") == "%20a" && "%20a"[..3] == "%20";
    assert "%20a"[3..] == "a" && "a"[1..] == "" && Unescape("") == "" && Unescape("a") == "a";
    assert " " + "a" == " a" && Unescape("%20a") == " a";
    assert " a"[1..] == "a" && Strip("a") == "a" && Strip(" a") == "a";
  }

  /**
   * Cleaning is not idempotent: a field that names "%20a" refers to " a", under
   * which name it was uploaded, and a completed download writes "a".  The
   * reference is on the server and not in the directory, now and after every pass.
   */
  lemma EscapedSpaceIsCleanedTwice(fold: string -> string)
    requires fold(" a") != fold("a")
    ensures var r := Clean("%20a");
      && Completed(fold, {r}, {r}, {}, [], [r], {r}, {"a"})
      && !OnBoth(fold, {r}, {}, {r}, {"a"}, r)
      && Completed(fold, {r}, {r}, {"a"}, [], [r], {r}, {"a"})
  {
    hide Clean;
    hide Below;
    EscapedSpace();
    var r := Clean("%20a");
    assert r == " a" && Below(0) == {} && Below(1) == {0};
    assert fold(r) in Keys(fold, {r});
    assert CleanNames([r], {0}) == {"a"} by { assert [r][0] == r; }
    assert Names([], {}) == {};
    assert [r][0] in [r];
  }
}
