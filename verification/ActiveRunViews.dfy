/**
 The active-run projection (internal/api/handler.go, buildActiveRunViews): which loops are
 shown, from which of four sources, each at most once.  Rendering a view and sorting the
 list are not modelled; building a loop's target may succeed, be skipped, or fail.
 */
module ActiveRunViews {
  import opened LoopStatuses
  import opened QueueItems
  import opened Wrappers

  datatype TargetAnswer = Built | Skipped | Fails

  datatype Loop = Loop(id: string, status: LoopStatus, young: bool, manual: bool, target: TargetAnswer)

  datatype Run = Run(id: string, loopId: string, recent: bool)

  datatype Kind = RunningRun | RunningLoop | QueuedLoop | InactiveLoop

  datatype View = View(loopId: string, runId: Option<string>, kind: Kind)

  /** What the repositories answered; `latest` gives a loop's latest run. */
  datatype Inputs = Inputs(
    loops: seq<Loop>,
    runs: seq<Run>,
    queue: seq<QueueItem>,
    latest: map<string, string>,
    verified: set<string>,
    allLoops: bool,
    withoutRuns: bool)

  /** Primary keys are unique. */
  predicate Keyed(x: Inputs) {
    && (forall i, j :: 0 <= i < j < |x.loops| ==> x.loops[i].id != x.loops[j].id)
    && (forall i, j :: 0 <= i < j < |x.runs| ==> x.runs[i].id != x.runs[j].id)
  }

  predicate IsActive(s: LoopStatus) {
    ConflictingActive(s) || s.Waiting?
  }

  predicate IsClosed(s: LoopStatus) {
    s.Terminated? || s.Completed? || s.Stopped?
  }

  // ---------------------------------------------------------------------------
  // Who is to be shown, and how
  // ---------------------------------------------------------------------------

  /** isPlausiblyLiveActiveRun. */
  predicate LiveRun(x: Inputs, run: Run, loop: Loop) {
    && loop.id in x.latest && x.latest[loop.id] == run.id
    && IsActive(loop.status)
    && (run.id in x.verified || run.recent)
  }

  predicate HasLiveRun(x: Inputs, loop: Loop) {
    exists i :: 0 <= i < |x.runs| && x.runs[i].loopId == loop.id && LiveRun(x, x.runs[i], loop)
  }

  predicate RunsAlone(x: Inputs, loop: Loop) {
    x.withoutRuns && loop.status.Running? && !HasLiveRun(x, loop) && (x.allLoops || loop.young)
  }

  predicate IsQueued(x: Inputs, loop: Loop) {
    loop.status.Queued? && HasLiveItem(x.queue, loop.id)
  }

  predicate IsListedAnyway(x: Inputs, loop: Loop) {
    x.allLoops || (!IsClosed(loop.status) && loop.manual)
  }

  /** The one view a loop should have, by order of precedence. */
  function Expected(x: Inputs, loop: Loop): Option<View> {
    if HasLiveRun(x, loop) then Some(View(loop.id, Some(x.latest[loop.id]), RunningRun))
    else if RunsAlone(x, loop) then Some(View(loop.id, None, RunningLoop))
    else if IsQueued(x, loop) then Some(View(loop.id, None, QueuedLoop))
    else if IsListedAnyway(x, loop) then
      Some(View(loop.id, if loop.id in x.latest then Some(x.latest[loop.id]) else None, InactiveLoop))
    else None
  }

  predicate Distinct(views: seq<View>) {
    forall j, k :: 0 <= j < k < |views| ==> views[j].loopId != views[k].loopId
  }

  /** The views show exactly the loops that should be shown and whose target builds, each once. */
  ghost predicate Projects(x: Inputs, views: seq<View>) {
    && Distinct(views)
    && (forall k :: 0 <= k < |views| ==> Justified(x, views[k]))
    && (forall i, v :: 0 <= i < |x.loops| && ShownAs(x, i, v) ==> v in views)
  }

  predicate Justified(x: Inputs, v: View) {
    exists i :: 0 <= i < |x.loops| && ShownAs(x, i, v)
  }

  predicate ShownAs(x: Inputs, i: nat, v: View)
    requires i < |x.loops|
  {
    x.loops[i].target.Built? && Expected(x, x.loops[i]) == Some(v)
  }

  /** Some loop that should be shown has a target that fails: the whole listing fails. */
  predicate SomeFails(x: Inputs) {
    exists i :: 0 <= i < |x.loops| && x.loops[i].target.Fails? && Expected(x, x.loops[i]).Some?
  }

  // ---------------------------------------------------------------------------
  // One pass per source
  // ---------------------------------------------------------------------------

  predicate Indexed(x: Inputs, byId: map<string, Loop>) {
    && (forall i :: 0 <= i < |x.loops| ==> x.loops[i].id in byId && byId[x.loops[i].id] == x.loops[i])
    && (forall id :: id in byId ==> byId[id].id == id && exists i :: 0 <= i < |x.loops| && x.loops[i] == byId[id])
  }

  method IndexLoops(x: Inputs) returns (byId: map<string, Loop>)
    requires Keyed(x)
    ensures Indexed(x, byId)
  {
    byId := map[];
    for n := 0 to |x.loops|
      invariant forall i :: 0 <= i < n ==> x.loops[i].id in byId && byId[x.loops[i].id] == x.loops[i]
      invariant forall id :: id in byId ==> byId[id].id == id && exists i :: 0 <= i < n && x.loops[i] == byId[id]
    {
      byId := byId[x.loops[n].id := x.loops[n]];
      assert x.loops[n] == byId[x.loops[n].id];
    }
  }

  function MakeView(x: Inputs, kind: Kind, loop: Loop): View {
    View(loop.id, if (kind.RunningRun? || kind.InactiveLoop?) && loop.id in x.latest then Some(x.latest[loop.id]) else None, kind)
  }

  /** Loop has a live run among the first `n`. */
  predicate LiveAmong(x: Inputs, n: nat, loop: Loop)
    requires n <= |x.runs|
  {
    exists k :: 0 <= k < n && x.runs[k].loopId == loop.id && LiveRun(x, x.runs[k], loop)
  }

  /** Which loops a pass takes; `taken` are the loops of the earlier passes. */
  predicate Wants(x: Inputs, kind: Kind, taken: set<string>, loop: Loop) {
    match kind
    case RunningRun => HasLiveRun(x, loop)
    case RunningLoop => RunsAlone(x, loop)
    case QueuedLoop => IsQueued(x, loop)
    case InactiveLoop => loop.id !in taken && IsListedAnyway(x, loop)
  }

  /** Every view of a pass is the view of a loop that the pass wants and that builds. */
  predicate Sound(x: Inputs, byId: map<string, Loop>, kind: Kind, taken: set<string>, views: seq<View>) {
    forall k :: 0 <= k < |views| ==>
      && views[k].loopId in byId
      && var loop := byId[views[k].loopId];
         loop.target.Built? && Wants(x, kind, taken, loop) && views[k] == MakeView(x, kind, loop)
  }

  predicate Complete(x: Inputs, n: nat, kind: Kind, taken: set<string>, views: seq<View>)
    requires n <= |x.loops|
  {
    forall i :: 0 <= i < n && x.loops[i].target.Built? && Wants(x, kind, taken, x.loops[i]) ==> MakeView(x, kind, x.loops[i]) in views
  }

  predicate NoneFails(x: Inputs, n: nat, kind: Kind, taken: set<string>)
    requires n <= |x.loops|
  {
    forall i :: 0 <= i < n && Wants(x, kind, taken, x.loops[i]) ==> !x.loops[i].target.Fails?
  }

  predicate Passed(x: Inputs, byId: map<string, Loop>, kind: Kind, taken: set<string>, views: seq<View>) {
    Distinct(views) && Sound(x, byId, kind, taken, views) && Complete(x, |x.loops|, kind, taken, views)
  }

  /** One more run: the loops with a live run among the first n + 1. */
  lemma OneMoreRun(x: Inputs, n: nat, loop: Loop)
    requires n < |x.runs|
    ensures LiveAmong(x, n + 1, loop) <==>
              LiveAmong(x, n, loop) || (x.runs[n].loopId == loop.id && LiveRun(x, x.runs[n], loop))
  {
    if x.runs[n].loopId == loop.id && LiveRun(x, x.runs[n], loop) {
      assert x.runs[n].loopId == loop.id;
    }
  }

  lemma NoRunsYet(x: Inputs)
    ensures forall loop: Loop :: !LiveAmong(x, 0, loop)
    ensures forall loop: Loop :: HasLiveRun(x, loop) <==> LiveAmong(x, |x.runs|, loop)
  {
  }

  /** A loop has at most one live run: the latest. */
  lemma OneLiveRun(x: Inputs, n: nat, loop: Loop)
    requires Keyed(x) && n < |x.runs| && LiveRun(x, x.runs[n], loop)
    ensures !LiveAmong(x, n, loop) && MakeView(x, RunningRun, loop) == View(loop.id, Some(x.runs[n].id), RunningRun)
    ensures x.runs[n].loopId == loop.id ==> HasLiveRun(x, loop)
  {
  }

  /** The pass over the running runs; also the set of loops that have a live one. */
  method RunningRuns(x: Inputs, byId: map<string, Loop>) returns (views: seq<View>, live: set<string>, failed: bool)
    requires Keyed(x) && Indexed(x, byId)
    ensures failed == !NoneFails(x, |x.loops|, RunningRun, {})
    ensures !failed ==> Passed(x, byId, RunningRun, {}, views)
    ensures !failed ==> forall id :: id in byId ==> (id in live <==> HasLiveRun(x, byId[id]))
  {
    hide LiveRun, LiveAmong;
    NoRunsYet(x);
    views, live := [], {};
    for n := 0 to |x.runs|
      invariant Distinct(views)
      invariant forall k :: 0 <= k < |views| ==>
                  && views[k].loopId in byId && byId[views[k].loopId].target.Built?
                  && LiveAmong(x, n, byId[views[k].loopId]) && views[k] == MakeView(x, RunningRun, byId[views[k].loopId])
      invariant forall id :: id in byId && byId[id].target.Built? && LiveAmong(x, n, byId[id]) ==>
                  MakeView(x, RunningRun, byId[id]) in views
      invariant forall id :: id in byId ==> (id in live <==> LiveAmong(x, n, byId[id]))
      invariant forall id :: id in byId && LiveAmong(x, n, byId[id]) ==> !byId[id].target.Fails?
    {
      var run := x.runs[n];
      forall id | id in byId
        ensures LiveAmong(x, n + 1, byId[id]) <==>
                  LiveAmong(x, n, byId[id]) || (run.loopId == id && LiveRun(x, run, byId[id]))
      {
        OneMoreRun(x, n, byId[id]);
      }
      if run.loopId !in byId || !LiveRun(x, run, byId[run.loopId]) {
        continue;
      }
      var loop := byId[run.loopId];
      OneLiveRun(x, n, loop);
      live := live + {run.loopId};
      if loop.target.Fails? {
        return views, live, true;
      }
      if loop.target.Built? {
        views := views + [View(run.loopId, Some(run.id), RunningRun)];
        assert views[|views| - 1] == MakeView(x, RunningRun, loop);
      }
    }
    failed := false;
  }

  /** The test each pass over the loops applies, on the sets built before it. */
  predicate Chosen(x: Inputs, kind: Kind, live: set<string>, queued: set<string>, taken: set<string>, loop: Loop) {
    match kind
    case RunningRun => loop.id in live
    case RunningLoop => x.withoutRuns && loop.status.Running? && loop.id !in live && (x.allLoops || loop.young)
    case QueuedLoop => loop.status.Queued? && loop.id in queued
    case InactiveLoop => loop.id !in taken && (x.allLoops || (!IsClosed(loop.status) && loop.manual))
  }

  predicate Reliable(x: Inputs, live: set<string>, queued: set<string>) {
    forall i :: 0 <= i < |x.loops| ==>
      && (x.loops[i].id in live <==> HasLiveRun(x, x.loops[i]))
      && (x.loops[i].id in queued <==> HasLiveItem(x.queue, x.loops[i].id))
  }

  lemma ChosenIsWanted(x: Inputs, kind: Kind, live: set<string>, queued: set<string>, taken: set<string>, i: nat)
    requires i < |x.loops| && Reliable(x, live, queued)
    ensures Chosen(x, kind, live, queued, taken, x.loops[i]) <==> Wants(x, kind, taken, x.loops[i])
  {
  }

  /** The passes over the loops: running ones without a run, queued ones, and the rest. */
  method LoopPass(x: Inputs, byId: map<string, Loop>, kind: Kind, live: set<string>, queued: set<string>,
      taken: set<string>)
    returns (views: seq<View>, failed: bool)
    requires Keyed(x) && Indexed(x, byId) && !kind.RunningRun? && Reliable(x, live, queued)
    ensures failed == !NoneFails(x, |x.loops|, kind, taken)
    ensures !failed ==> Passed(x, byId, kind, taken, views)
  {
    hide Wants, Chosen, Reliable;
    views := [];
    for n := 0 to |x.loops|
      invariant Distinct(views) && Sound(x, byId, kind, taken, views) && Complete(x, n, kind, taken, views)
      invariant NoneFails(x, n, kind, taken)
      invariant forall k, i :: 0 <= k < |views| && n <= i < |x.loops| ==> views[k].loopId != x.loops[i].id
    {
      var loop := x.loops[n];
      ChosenIsWanted(x, kind, live, queued, taken, n);
      if !Chosen(x, kind, live, queued, taken, loop) {
        continue;
      }
      if loop.target.Fails? {
        return views, true;
      }
      if loop.target.Built? {
        AddView(x, byId, n, kind, taken, views);
        views := views + [MakeView(x, kind, loop)];
      }
    }
    failed := false;
  }

  lemma AddView(x: Inputs, byId: map<string, Loop>, n: nat, kind: Kind, taken: set<string>, views: seq<View>)
    requires Keyed(x) && Indexed(x, byId) && n < |x.loops| && x.loops[n].target.Built? && Wants(x, kind, taken, x.loops[n])
    requires Distinct(views) && Sound(x, byId, kind, taken, views) && Complete(x, n, kind, taken, views)
    requires forall k, i :: 0 <= k < |views| && n <= i < |x.loops| ==> views[k].loopId != x.loops[i].id
    ensures var more := views + [MakeView(x, kind, x.loops[n])];
            && Distinct(more) && Sound(x, byId, kind, taken, more) && Complete(x, n + 1, kind, taken, more)
            && forall k, i :: 0 <= k < |more| && n + 1 <= i < |x.loops| ==> more[k].loopId != x.loops[i].id
  {
    hide Wants, Reliable;
    var more := views + [MakeView(x, kind, x.loops[n])];
    assert more[|views|] == MakeView(x, kind, x.loops[n]);
    forall i | 0 <= i < n + 1 && x.loops[i].target.Built? && Wants(x, kind, taken, x.loops[i])
      ensures MakeView(x, kind, x.loops[i]) in more
    {
      assert i < n ==> MakeView(x, kind, x.loops[i]) in views;
    }
  }

  // ---------------------------------------------------------------------------
  // Putting them together
  // ---------------------------------------------------------------------------

  method LoopIds(views: seq<View>) returns (ids: set<string>)
    ensures forall id :: id in ids <==> Shows(views, id)
  {
    ids := {};
    for n := 0 to |views|
      invariant forall id :: id in ids <==> Shows(views[..n], id)
    {
      assert forall k :: 0 <= k < n ==> views[..n + 1][k] == views[..n][k];
      assert views[..n + 1][n] == views[n];
      ids := ids + {views[n].loopId};
    }
    assert views[..|views|] == views;
  }

  predicate Shows(views: seq<View>, id: string) {
    exists k :: 0 <= k < |views| && views[k].loopId == id
  }

  /** excludeActiveRunViewsByLoopID. */
  method Exclude(items: seq<View>, excluded: seq<View>) returns (filtered: seq<View>)
    requires Distinct(items)
    ensures Distinct(filtered)
    ensures forall v :: v in filtered <==> v in items && !Shows(excluded, v.loopId)
  {
    var ids := LoopIds(excluded);
    filtered := [];
    for n := 0 to |items|
      invariant Distinct(filtered)
      invariant forall v :: v in filtered <==> v in items[..n] && !Shows(excluded, v.loopId)
      invariant forall v :: v in filtered ==> v in items[..n]
    {
      assert items[..n + 1] == items[..n] + [items[n]];
      if items[n].loopId in ids {
        continue;
      }
      filtered := filtered + [items[n]];
    }
    assert items[..|items|] == items;
  }

  /** The four passes of a listing that did not fail. */
  ghost predicate AllPassed(x: Inputs, byId: map<string, Loop>, running: seq<View>, alone: seq<View>,
      queued: seq<View>, taken: set<string>, rest: seq<View>) {
    && Passed(x, byId, RunningRun, {}, running) && Passed(x, byId, RunningLoop, {}, alone)
    && Passed(x, byId, QueuedLoop, {}, queued) && Passed(x, byId, InactiveLoop, taken, rest)
    && (forall id :: id in taken <==> Shows(running, id) || Shows(alone, id) || Shows(queued, id))
  }

  /** A pass shows a loop exactly when it wants it and its target builds. */
  lemma PassShows(x: Inputs, byId: map<string, Loop>, kind: Kind, taken: set<string>, views: seq<View>, i: nat)
    requires Keyed(x) && Indexed(x, byId) && i < |x.loops| && Passed(x, byId, kind, taken, views)
    ensures Shows(views, x.loops[i].id) <==> x.loops[i].target.Built? && Wants(x, kind, taken, x.loops[i])
    ensures Shows(views, x.loops[i].id) ==> MakeView(x, kind, x.loops[i]) in views
  {
    hide Wants;
    var loop := x.loops[i];
    if loop.target.Built? && Wants(x, kind, taken, loop) {
      var k :| 0 <= k < |views| && views[k] == MakeView(x, kind, loop);
      assert views[k].loopId == loop.id;
    }
  }

  lemma ViewHasLoop(x: Inputs, byId: map<string, Loop>, kind: Kind, taken: set<string>, views: seq<View>,
      v: View) returns (i: nat)
    requires Keyed(x) && Indexed(x, byId) && Passed(x, byId, kind, taken, views) && v in views
    ensures i < |x.loops| && v == MakeView(x, kind, x.loops[i]) && Shows(views, x.loops[i].id)
  {
    hide Wants;
    i :| 0 <= i < |x.loops| && x.loops[i] == byId[v.loopId];
    var k :| 0 <= k < |views| && views[k] == v;
    assert views[k].loopId == x.loops[i].id;
  }

  /** Which list shows a loop: the first whose pass wants it. */
  lemma OneListShows(x: Inputs, byId: map<string, Loop>, running: seq<View>, alone: seq<View>, queued: seq<View>,
      taken: set<string>, rest: seq<View>, i: nat)
    requires Keyed(x) && Indexed(x, byId) && AllPassed(x, byId, running, alone, queued, taken, rest) && i < |x.loops|
    ensures var loop := x.loops[i];
            var built := loop.target.Built?;
            && (Shows(running, loop.id) <==> built && HasLiveRun(x, loop))
            && (Shows(alone, loop.id) <==> built && RunsAlone(x, loop))
            && (Shows(queued, loop.id) && !Shows(running, loop.id) && !Shows(alone, loop.id) <==>
                  built && IsQueued(x, loop) && !HasLiveRun(x, loop) && !RunsAlone(x, loop))
            && (Shows(rest, loop.id) <==> built && !HasLiveRun(x, loop) && !RunsAlone(x, loop) && !IsQueued(x, loop) && IsListedAnyway(x, loop))
  {
    hide HasLiveRun, RunsAlone, IsQueued, IsListedAnyway, Passed;
    PassShows(x, byId, RunningRun, {}, running, i);
    PassShows(x, byId, RunningLoop, {}, alone, i);
    PassShows(x, byId, QueuedLoop, {}, queued, i);
    PassShows(x, byId, InactiveLoop, taken, rest, i);
  }

  lemma ExpectedIs(x: Inputs, loop: Loop)
    ensures HasLiveRun(x, loop) ==> Expected(x, loop) == Some(MakeView(x, RunningRun, loop))
    ensures RunsAlone(x, loop) ==> Expected(x, loop) == Some(MakeView(x, RunningLoop, loop))
    ensures !HasLiveRun(x, loop) && !RunsAlone(x, loop) && IsQueued(x, loop) ==>
              Expected(x, loop) == Some(MakeView(x, QueuedLoop, loop))
    ensures !HasLiveRun(x, loop) && !RunsAlone(x, loop) && !IsQueued(x, loop) && IsListedAnyway(x, loop) ==>
              Expected(x, loop) == Some(MakeView(x, InactiveLoop, loop))
    ensures Expected(x, loop).Some? <==>
              HasLiveRun(x, loop) || RunsAlone(x, loop) || IsQueued(x, loop) || IsListedAnyway(x, loop)
  {
  }

  /** `shown` are the queued views that no earlier list shows. */
  ghost predicate Remaining(running: seq<View>, alone: seq<View>, queued: seq<View>, shown: seq<View>) {
    Distinct(shown) && forall v :: v in shown <==> v in queued && !Shows(running, v.loopId) && !Shows(alone, v.loopId)
  }

  /** Each view of the list is the expected view of a loop whose target builds. */
  lemma EachViewIsExpected(x: Inputs, byId: map<string, Loop>, running: seq<View>, alone: seq<View>,
      queued: seq<View>, shown: seq<View>, taken: set<string>, rest: seq<View>, v: View)
    returns (i: nat)
    requires Keyed(x) && Indexed(x, byId) && AllPassed(x, byId, running, alone, queued, taken, rest)
    requires Remaining(running, alone, queued, shown) && v in running + alone + shown + rest
    ensures i < |x.loops| && x.loops[i].id == v.loopId && x.loops[i].target.Built? && Expected(x, x.loops[i]) == Some(v)
  {
    hide Expected, HasLiveRun, RunsAlone, IsQueued, IsListedAnyway, Passed, Distinct, Indexed;
    if v in running {
      i := ViewHasLoop(x, byId, RunningRun, {}, running, v);
    } else if v in alone {
      i := ViewHasLoop(x, byId, RunningLoop, {}, alone, v);
    } else if v in shown {
      i := ViewHasLoop(x, byId, QueuedLoop, {}, queued, v);
    } else {
      i := ViewHasLoop(x, byId, InactiveLoop, taken, rest, v);
    }
    OneListShows(x, byId, running, alone, queued, taken, rest, i);
    ExpectedIs(x, x.loops[i]);
  }

  /** Each loop that should be shown and builds is. */
  lemma EachLoopIsShown(x: Inputs, byId: map<string, Loop>, running: seq<View>, alone: seq<View>, queued: seq<View>,
      shown: seq<View>, taken: set<string>, rest: seq<View>, i: nat)
    requires Keyed(x) && Indexed(x, byId) && AllPassed(x, byId, running, alone, queued, taken, rest)
    requires Remaining(running, alone, queued, shown)
    requires i < |x.loops| && x.loops[i].target.Built? && Expected(x, x.loops[i]).Some?
    ensures Expected(x, x.loops[i]).value in running + alone + shown + rest
  {
    hide Expected, HasLiveRun, RunsAlone, IsQueued, IsListedAnyway, Passed, Distinct, Indexed, Shows;
    var loop := x.loops[i];
    OneListShows(x, byId, running, alone, queued, taken, rest, i);
    ExpectedIs(x, loop);
    PassShows(x, byId, RunningRun, {}, running, i);
    PassShows(x, byId, RunningLoop, {}, alone, i);
    PassShows(x, byId, QueuedLoop, {}, queued, i);
    PassShows(x, byId, InactiveLoop, taken, rest, i);
  }

  /** No loop is in two of the lists. */
  lemma ListsAreDisjoint(x: Inputs, byId: map<string, Loop>, running: seq<View>, alone: seq<View>,
      queued: seq<View>, shown: seq<View>, taken: set<string>, rest: seq<View>)
    requires Keyed(x) && Indexed(x, byId) && AllPassed(x, byId, running, alone, queued, taken, rest)
    requires Remaining(running, alone, queued, shown)
    ensures forall id :: !(Shows(running, id) && Shows(alone, id)) && !(Shows(running + alone, id) && Shows(shown, id))
                         && !(Shows(running + alone + shown, id) && Shows(rest, id))
  {
    forall id
      ensures !(Shows(running, id) && Shows(alone, id)) && !(Shows(running + alone, id) && Shows(shown, id))
              && !(Shows(running + alone + shown, id) && Shows(rest, id))
    {
      ShowsConcat(running, alone, id);
      ShowsConcat(running + alone, shown, id);
      ShownAreQueued(running, alone, queued, shown, id);
      DisjointAt(x, byId, running, alone, queued, taken, rest, id);
    }
  }

  lemma ShowsConcat(a: seq<View>, b: seq<View>, id: string)
    ensures Shows(a + b, id) <==> Shows(a, id) || Shows(b, id)
  {
    if Shows(a, id) {
      var k :| 0 <= k < |a| && a[k].loopId == id;
      assert (a + b)[k].loopId == id;
    }
    if Shows(b, id) {
      var k :| 0 <= k < |b| && b[k].loopId == id;
      assert (a + b)[|a| + k].loopId == id;
    }
  }

  lemma ShownAreQueued(running: seq<View>, alone: seq<View>, queued: seq<View>, shown: seq<View>, id: string)
    requires Remaining(running, alone, queued, shown)
    ensures Shows(shown, id) ==> Shows(queued, id) && !Shows(running, id) && !Shows(alone, id)
  {
    if Shows(shown, id) {
      var k :| 0 <= k < |shown| && shown[k].loopId == id;
      assert shown[k] in queued;
    }
  }

  lemma RunningIsNotAlone(x: Inputs)
    ensures forall loop: Loop :: !(HasLiveRun(x, loop) && RunsAlone(x, loop))
  {
  }

  lemma DisjointAt(x: Inputs, byId: map<string, Loop>, running: seq<View>, alone: seq<View>, queued: seq<View>,
      taken: set<string>, rest: seq<View>, id: string)
    requires Keyed(x) && Indexed(x, byId) && AllPassed(x, byId, running, alone, queued, taken, rest)
    ensures !(Shows(running, id) && Shows(alone, id))
    ensures Shows(rest, id) ==> !Shows(running, id) && !Shows(alone, id) && !Shows(queued, id)
  {
    hide HasLiveRun, RunsAlone, IsQueued, IsListedAnyway, Indexed, Passed;
    RunningIsNotAlone(x);
    if Shows(running, id) && Shows(alone, id) {
      var k :| 0 <= k < |running| && running[k].loopId == id;
      var i := ViewHasLoop(x, byId, RunningRun, {}, running, running[k]);
      OneListShows(x, byId, running, alone, queued, taken, rest, i);
    }
    if Shows(rest, id) {
      var k :| 0 <= k < |rest| && rest[k].loopId == id;
      var i := ViewHasLoop(x, byId, InactiveLoop, taken, rest, rest[k]);
      PassShows(x, byId, InactiveLoop, taken, rest, i);
    }
  }

  lemma DistinctConcat(a: seq<View>, b: seq<View>)
    requires Distinct(a) && Distinct(b) && forall id :: !(Shows(a, id) && Shows(b, id))
    ensures Distinct(a + b)
  {
    forall j, k | 0 <= j < k < |a + b|
      ensures (a + b)[j].loopId != (a + b)[k].loopId
    {
      if j < |a| <= k {
        assert Shows(a, (a + b)[j].loopId);
        assert b[k - |a|] == (a + b)[k];
        assert Shows(b, (a + b)[k].loopId);
      }
    }
  }

  lemma Combined(x: Inputs, byId: map<string, Loop>, running: seq<View>, alone: seq<View>, queued: seq<View>,
      shown: seq<View>, taken: set<string>, rest: seq<View>)
    requires Keyed(x) && Indexed(x, byId) && AllPassed(x, byId, running, alone, queued, taken, rest)
    requires Remaining(running, alone, queued, shown)
    ensures Projects(x, running + alone + shown + rest)
  {
    hide HasLiveRun, RunsAlone, IsQueued, IsListedAnyway, Indexed;
    var views := running + alone + shown + rest;
    ListsAreDisjoint(x, byId, running, alone, queued, shown, taken, rest);
    DistinctConcat(running, alone);
    DistinctConcat(running + alone, shown);
    DistinctConcat(running + alone + shown, rest);
    forall k | 0 <= k < |views|
      ensures Justified(x, views[k])
    {
      var i := EachViewIsExpected(x, byId, running, alone, queued, shown, taken, rest, views[k]);
      assert ShownAs(x, i, views[k]);
    }
    forall i, v | 0 <= i < |x.loops| && ShownAs(x, i, v)
      ensures v in views
    {
      EachLoopIsShown(x, byId, running, alone, queued, shown, taken, rest, i);
    }
  }

  /** The listing fails exactly when a loop that should be shown has a failing target. */
  lemma FailureIff(x: Inputs, taken: set<string>)
    requires forall i :: 0 <= i < |x.loops| && x.loops[i].target.Fails? ==> x.loops[i].id !in taken
    ensures SomeFails(x) <==> !(NoneFails(x, |x.loops|, RunningRun, {}) && NoneFails(x, |x.loops|, RunningLoop, {})
                                && NoneFails(x, |x.loops|, QueuedLoop, {}) && NoneFails(x, |x.loops|, InactiveLoop, taken))
  {
    hide Expected;
    forall i | 0 <= i < |x.loops| && x.loops[i].target.Fails?
      ensures Expected(x, x.loops[i]).Some? <==>
                Wants(x, RunningRun, {}, x.loops[i]) || Wants(x, RunningLoop, {}, x.loops[i])
                || Wants(x, QueuedLoop, {}, x.loops[i]) || Wants(x, InactiveLoop, taken, x.loops[i])
    {
      ExpectedIs(x, x.loops[i]);
    }
  }

  /** buildActiveRunViews, before its sort. */
  method BuildActiveRunViews(x: Inputs) returns (views: seq<View>, failed: bool)
    requires Keyed(x)
    ensures failed == SomeFails(x)
    ensures !failed ==> Projects(x, views)
  {
    var byId := IndexLoops(x);
    var queuedIds := QueuedIds(x.queue);
    var running, live, broken := RunningRuns(x, byId);
    if broken {
      FailureIff(x, {});
      return [], true;
    }
    assert Reliable(x, live, queuedIds);
    var alone, queued;
    queued, broken := LoopPass(x, byId, QueuedLoop, live, queuedIds, {});
    if broken {
      FailureIff(x, {});
      return [], true;
    }
    alone, broken := LoopPass(x, byId, RunningLoop, live, queuedIds, {});
    if broken {
      FailureIff(x, {});
      return [], true;
    }
    var runningIds := LoopIds(running);
    var aloneIds := LoopIds(alone);
    var queuedViewIds := LoopIds(queued);
    var included := runningIds + aloneIds + queuedViewIds;
    var rest;
    rest, broken := LoopPass(x, byId, InactiveLoop, live, queuedIds, included);
    BuiltOnly(x, byId, running, alone, queued, included);
    FailureIff(x, included);
    if broken {
      return [], true;
    }
    forall id
      ensures Shows(running + alone, id) <==> Shows(running, id) || Shows(alone, id)
    {
      ShowsConcat(running, alone, id);
    }
    var shown := Exclude(queued, running + alone);
    Combined(x, byId, running, alone, queued, shown, included, rest);
    views, failed := running + alone + shown + rest, false;
  }

  lemma BuiltOnly(x: Inputs, byId: map<string, Loop>, running: seq<View>, alone: seq<View>, queued: seq<View>,
      taken: set<string>)
    requires Keyed(x) && Indexed(x, byId)
    requires Passed(x, byId, RunningRun, {}, running) && Passed(x, byId, RunningLoop, {}, alone) && Passed(x, byId, QueuedLoop, {}, queued)
    requires forall id :: id in taken <==> Shows(running, id) || Shows(alone, id) || Shows(queued, id)
    ensures forall i :: 0 <= i < |x.loops| && x.loops[i].target.Fails? ==> x.loops[i].id !in taken
  {
    forall i | 0 <= i < |x.loops| && x.loops[i].target.Fails?
      ensures x.loops[i].id !in taken
    {
      PassShows(x, byId, RunningRun, {}, running, i);
      PassShows(x, byId, RunningLoop, {}, alone, i);
      PassShows(x, byId, QueuedLoop, {}, queued, i);
    }
  }

  // ---------------------------------------------------------------------------
  // Who is shown, on the inputs themselves
  // ---------------------------------------------------------------------------

  /** The loop's latest run, when the loop is active and the run is verified or recent. */
  predicate RunsNow(x: Inputs, loop: Loop) {
    && loop.status in {Idle, Queued, Running, Paused, Waiting, AwaitingHuman, HumanTakeover}
    && loop.id in x.latest
    && exists run :: run in x.runs && run.loopId == loop.id && run.id == x.latest[loop.id] && (run.id in x.verified || run.recent)
  }

  /** A running loop without such a run, when those are asked for and the loop is young or all are. */
  predicate RunsUnseen(x: Inputs, loop: Loop) {
    !RunsNow(x, loop) && loop.status == Running && x.withoutRuns && (loop.young || x.allLoops)
  }

  /** A queued loop with a queue item that is still live. */
  predicate WaitsInQueue(x: Inputs, loop: Loop) {
    !RunsNow(x, loop) && loop.status == Queued && QueueItem(Some(loop.id), true) in x.queue
  }

  /** Any other loop, when all are asked for, or when it is manual and not at an end. */
  predicate IsListed(x: Inputs, loop: Loop) {
    && !RunsNow(x, loop) && !RunsUnseen(x, loop) && !WaitsInQueue(x, loop)
    && (x.allLoops || (loop.manual && loop.status !in {Terminated, Completed, Stopped}))
  }

  lemma RunsNowIff(x: Inputs, loop: Loop)
    ensures HasLiveRun(x, loop) <==> RunsNow(x, loop)
  {
    if RunsNow(x, loop) {
      var run :| run in x.runs && run.loopId == loop.id && run.id == x.latest[loop.id] && (run.id in x.verified || run.recent);
      var i :| 0 <= i < |x.runs| && x.runs[i] == run;
      assert LiveRun(x, x.runs[i], loop);
    }
    if HasLiveRun(x, loop) {
      var i :| 0 <= i < |x.runs| && x.runs[i].loopId == loop.id && LiveRun(x, x.runs[i], loop);
      assert x.runs[i] in x.runs;
    }
  }

  lemma QueueIff(x: Inputs, loop: Loop)
    ensures HasLiveItem(x.queue, loop.id) <==> QueueItem(Some(loop.id), true) in x.queue
  {
    if i :| 0 <= i < |x.queue| && x.queue[i].loopId == Some(loop.id) && x.queue[i].live {
      assert x.queue[i] == QueueItem(Some(loop.id), true);
    }
  }

  /** How a loop is shown, if at all; each case gives the run it has or the latest one there is. */
  lemma ExpectedSays(x: Inputs, loop: Loop)
    ensures Expected(x, loop) ==
            if RunsNow(x, loop) then Some(View(loop.id, Some(x.latest[loop.id]), RunningRun))
            else if RunsUnseen(x, loop) then Some(View(loop.id, None, RunningLoop))
            else if WaitsInQueue(x, loop) then Some(View(loop.id, None, QueuedLoop))
            else if IsListed(x, loop) then
              Some(View(loop.id, if loop.id in x.latest then Some(x.latest[loop.id]) else None, InactiveLoop))
            else None
  {
    hide HasLiveRun, RunsNow, HasLiveItem;
    RunsNowIff(x, loop);
    QueueIff(x, loop);
  }

  /** In the finished list a loop that builds has exactly the view its own state calls for, and any other has none. */
  lemma EachLoopIsShownAsItIs(x: Inputs, views: seq<View>, i: nat, kind: Kind, runId: Option<string>)
    requires Keyed(x) && Projects(x, views) && i < |x.loops|
    ensures var loop := x.loops[i];
            View(loop.id, runId, kind) in views <==>
            loop.target.Built? &&
            match kind
            case RunningRun => RunsNow(x, loop) && runId == Some(x.latest[loop.id])
            case RunningLoop => RunsUnseen(x, loop) && runId == None
            case QueuedLoop => WaitsInQueue(x, loop) && runId == None
            case InactiveLoop => IsListed(x, loop) && runId == if loop.id in x.latest then Some(x.latest[loop.id]) else None
  {
    hide Expected, RunsNow;
    var loop, v := x.loops[i], View(x.loops[i].id, runId, kind);
    ExpectedSays(x, loop);
    if v in views {
      var k :| 0 <= k < |views| && views[k] == v;
      assert Justified(x, views[k]);
      var j :| 0 <= j < |x.loops| && ShownAs(x, j, v);
      ExpectedSays(x, x.loops[j]);
      assert x.loops[j].id == loop.id && i == j;
    }
    if loop.target.Built? && Expected(x, loop) == Some(v) {
      assert ShownAs(x, i, v);
    }
  }

  /** In the all-loops mode every loop whose target builds is shown exactly once, whatever else was read. */
  lemma AllLoopsAreShownOnce(x: Inputs, views: seq<View>, i: nat)
    requires x.allLoops && Projects(x, views) && i < |x.loops| && x.loops[i].target.Built?
    ensures exists k :: 0 <= k < |views| && views[k].loopId == x.loops[i].id
                        && forall j :: 0 <= j < |views| && j != k ==> views[j].loopId != x.loops[i].id
  {
    hide HasLiveRun, RunsAlone, IsQueued;
    var v := Expected(x, x.loops[i]).value;
    assert ShownAs(x, i, v);
    var k :| 0 <= k < |views| && views[k] == v;
    forall j | 0 <= j < |views| && j != k
      ensures views[j].loopId != views[k].loopId
    {
      assert if j < k then views[j].loopId != views[k].loopId else views[k].loopId != views[j].loopId;
    }
  }
}
