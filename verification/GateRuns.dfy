/**
 All interleavings of stops, takeovers, closes, stop-all's kill windows, the planner's stops,
 retries and starts on one loop, broken at every point where one can be overtaken by another.  Retries,
 starts, closes and the park step of a takeover exclude each other by the per-loop lock;
 stops, stop-all and the planner's stop of a superseded work graph take no lock.
 */
module GateRuns {
  import opened LoopStatuses
  import opened Wrappers
  import opened SpawnGate

  /** An operation between two of its steps. */
  datatype Thread =
    | Parking
    | Window(generation: nat, closing: bool)
    | Cleared(start: bool, wasActive: bool)
    | MustRestore

  /**
   `kept` counts the holds that are never given back, `cleared` is how many generations
   existed at the last clear, and `fenced` says that the loop was parked by a stop or
   takeover that has closed the gate since, and was not reactivated afterwards.
   */
  datatype World = World(
    entry: Entry,
    status: LoopStatus,
    threads: map<nat, Thread>,
    kept: multiset<nat>,
    cleared: nat,
    fenced: bool)

  datatype Event =
    | ApiPause
    | Park(id: nat, takeover: bool)
    | StickyStop(id: nat)
    | StopWorkGraph
    | OpenWindow(id: nat, closing: bool)
    | CloseWindow(id: nat)
    | CloseLoop(id: nat)
    | ClearGate(id: nat, start: bool)
    | Commit(id: nat, publishes: bool)
    | Abort(id: nat)
    | RestoreGate(id: nat)

  function Init(status: LoopStatus): World {
    World(Entry(None, 0), status, map[], multiset{}, 0, false)
  }

  predicate Reactivating(t: Thread) {
    t.Cleared? || t.MustRestore?
  }

  predicate HoldsLock(t: Thread) {
    Reactivating(t) || (t.Window? && t.closing)
  }

  predicate LockFree(w: World) {
    forall id :: id in w.threads ==> !HoldsLock(w.threads[id])
  }

  predicate Enabled(w: World, e: Event) {
    match e
    case ApiPause => true
    case Park(id, takeover) => id !in w.threads && (takeover ==> LockFree(w))
    case StickyStop(id) => id in w.threads && w.threads[id].Parking?
    case StopWorkGraph => true
    case OpenWindow(id, closing) => id !in w.threads && (closing ==> LockFree(w))
    case CloseWindow(id) => id in w.threads && w.threads[id].Window?
    case CloseLoop(id) => id in w.threads && w.threads[id].Window? && w.threads[id].closing
    case ClearGate(id, _) => id !in w.threads && LockFree(w)
    case Commit(id, _) => id in w.threads && w.threads[id].Cleared?
    case Abort(id) => id in w.threads && w.threads[id].Cleared?
    case RestoreGate(id) => id in w.threads && w.threads[id].MustRestore?
  }

  /** A hold that is kept for good. */
  function Keep(w: World): World {
    w.(entry := Hold(w.entry), kept := w.kept + multiset{HoldGeneration(w.entry)})
  }

  function Apply(w: World, e: Event): World
    requires Enabled(w, e)
  {
    match e
    case ApiPause => w.(status := Paused)
    case Park(id, takeover) => w.(status := if takeover then HumanTakeover else Paused, threads := w.threads[id := Parking])
    case StickyStop(id) => Keep(w).(threads := w.threads - {id}, fenced := w.fenced || IsParked(w.status))
    case StopWorkGraph => Keep(w)
    case OpenWindow(id, closing) => w.(entry := Hold(w.entry), threads := w.threads[id := Window(HoldGeneration(w.entry), closing)])
    case CloseWindow(id) => w.(entry := Drop(w.entry, w.threads[id].generation), threads := w.threads - {id})
    case CloseLoop(id) =>
      w.(status := Terminated, kept := w.kept + multiset{w.threads[id].generation}, threads := w.threads - {id}, fenced := false)
    case ClearGate(id, start) =>
      w.(entry := Clear(w.entry), threads := w.threads[id := Cleared(start, Closed(w.entry))], cleared := w.entry.made)
    case Commit(id, publishes) =>
      var t := w.threads[id];
      if t.start || publishes then
        w.(status := if t.start then Running else Queued, threads := w.threads - {id}, fenced := false)
      else GiveUp(w, id)
    case Abort(id) => GiveUp(w, id)
    case RestoreGate(id) => Keep(w).(threads := w.threads - {id})
  }

  function GiveUp(w: World, id: nat): World
    requires id in w.threads && w.threads[id].Cleared?
  {
    w.(threads := if w.threads[id].wasActive then w.threads[id := MustRestore] else w.threads - {id})
  }

  ghost predicate Feasible(w: World, run: seq<Event>)
    decreases |run|
  {
    run == [] || (Enabled(w, run[0]) && Feasible(Apply(w, run[0]), run[1..]))
  }

  ghost function Exec(w: World, run: seq<Event>): World
    requires Feasible(w, run)
    decreases |run|
  {
    if run == [] then w else Exec(Apply(w, run[0]), run[1..])
  }

  // ---------------------------------------------------------------------------
  // The refcount is the number of outstanding holds of the live generation
  // ---------------------------------------------------------------------------

  ghost function Windows(threads: map<nat, Thread>, generation: nat): set<nat> {
    set id | id in threads && threads[id].Window? && threads[id].generation == generation
  }

  ghost function Holds(w: World, generation: nat): nat {
    w.kept[generation] + |Windows(w.threads, generation)|
  }

  predicate Fresh(w: World) {
    && w.cleared <= w.entry.made
    && (w.entry.live.Some? ==> w.cleared <= w.entry.live.value.generation < w.entry.made)
  }

  /** A generation with holds outstanding was cleared, or is the live one. */
  predicate Accounted(w: World, g: nat) {
    g < w.entry.made && (g < w.cleared || (w.entry.live.Some? && w.entry.live.value.generation == g))
  }

  ghost predicate Counted(w: World) {
    && (w.entry.live.Some? ==> w.entry.live.value.refs == Holds(w, w.entry.live.value.generation) >= 1)
    && (forall g: nat :: Holds(w, g) > 0 ==> Accounted(w, g))
  }

  /** The lock has one holder, and a closing window's hold is of a generation that was not cleared. */
  predicate LockInv(w: World) {
    && (forall i, j :: i in w.threads && j in w.threads && HoldsLock(w.threads[i]) && HoldsLock(w.threads[j]) ==> i == j)
    && (forall i :: i in w.threads && w.threads[i].Window? && w.threads[i].closing ==> w.threads[i].generation >= w.cleared)
  }

  /** A reactivation under way that will close the gate again unless it commits. */
  predicate WillRestore(w: World) {
    exists id :: id in w.threads && (w.threads[id].MustRestore? || (w.threads[id].Cleared? && w.threads[id].wasActive))
  }

  predicate KeptClosed(w: World) {
    w.entry.live.Some? && w.kept[w.entry.live.value.generation] > 0
  }

  predicate FenceHolds(w: World) {
    w.fenced ==> KeptClosed(w) || WillRestore(w)
  }

  ghost predicate Inv(w: World) {
    Fresh(w) && Counted(w) && LockInv(w) && FenceHolds(w)
  }

  lemma InitInv(status: LoopStatus)
    ensures Inv(Init(status))
  {
    forall g: nat
      ensures Holds(Init(status), g) == 0
    {
      assert Windows(map[], g) == {};
    }
  }

  lemma SameWindows(threads: map<nat, Thread>, id: nat, t: Thread, generation: nat)
    ensures (id !in threads || !threads[id].Window?) && !t.Window? ==>
              Windows(threads[id := t], generation) == Windows(threads, generation)
    ensures (id !in threads || !threads[id].Window?) ==>
              Windows(threads - {id}, generation) == Windows(threads, generation)
  {
  }

  lemma OneWindowMore(threads: map<nat, Thread>, id: nat, mine: nat, closing: bool, generation: nat)
    requires id !in threads
    ensures |Windows(threads[id := Window(mine, closing)], generation)| == |Windows(threads, generation)| + if mine == generation then 1 else 0
  {
    var more := threads[id := Window(mine, closing)];
    if mine == generation {
      assert Windows(more, generation) == Windows(threads, generation) + {id};
    } else {
      assert Windows(more, generation) == Windows(threads, generation);
    }
  }

  lemma OneWindowLess(threads: map<nat, Thread>, id: nat, generation: nat)
    requires id in threads && threads[id].Window?
    ensures |Windows(threads - {id}, generation)| == |Windows(threads, generation)| - if threads[id].generation == generation then 1 else 0
  {
    var fewer := threads - {id};
    if threads[id].generation == generation {
      assert Windows(threads, generation) == Windows(fewer, generation) + {id};
    } else {
      assert Windows(fewer, generation) == Windows(threads, generation);
    }
  }

  /** The steps that take a hold and never give it back. */
  predicate StaysClosed(e: Event) {
    e.StickyStop? || e.StopWorkGraph? || e.RestoreGate?
  }

  /** How each step changes the number of outstanding holds of a generation. */
  lemma HoldsChange(w: World, e: Event, g: nat)
    requires Enabled(w, e)
    ensures Holds(Apply(w, e), g) ==
            if (StaysClosed(e) || e.OpenWindow?) && g == HoldGeneration(w.entry) then Holds(w, g) + 1
            else if e.CloseWindow? && g == w.threads[e.id].generation then Holds(w, g) - 1
            else Holds(w, g)
  {
    match e
    case ApiPause =>
    case StopWorkGraph =>
    case OpenWindow(id, closing) => OneWindowMore(w.threads, id, HoldGeneration(w.entry), closing, g);
    case CloseWindow(id) => OneWindowLess(w.threads, id, g);
    case CloseLoop(id) => OneWindowLess(w.threads, id, g);
    case Park(id, _) => SameWindows(w.threads, id, Parking, g);
    case StickyStop(id) => SameWindows(w.threads, id, Parking, g);
    case ClearGate(id, start) => SameWindows(w.threads, id, Cleared(start, Closed(w.entry)), g);
    case Commit(id, _) => SameWindows(w.threads, id, MustRestore, g);
    case Abort(id) => SameWindows(w.threads, id, MustRestore, g);
    case RestoreGate(id) => SameWindows(w.threads, id, MustRestore, g);
  }

  lemma CountPreserved(w: World, e: Event)
    requires Fresh(w) && Counted(w) && Enabled(w, e)
    ensures Fresh(Apply(w, e)) && Counted(Apply(w, e))
  {
    var t := Apply(w, e);
    forall g: nat
      ensures Holds(t, g) > 0 ==> Accounted(t, g)
      ensures t.entry.live.Some? && t.entry.live.value.generation == g ==> t.entry.live.value.refs == Holds(t, g) >= 1
    {
      HoldsChange(w, e, g);
      if e.CloseWindow? {
        assert e.id in Windows(w.threads, w.threads[e.id].generation);
      }
    }
  }

  lemma LockPreserved(w: World, e: Event)
    requires LockInv(w) && Fresh(w) && Enabled(w, e)
    ensures LockInv(Apply(w, e))
  {
  }

  lemma FencePreserved(w: World, e: Event)
    requires Inv(w) && Enabled(w, e)
    ensures FenceHolds(Apply(w, e))
  {
    var t := Apply(w, e);
    match e
    case ClearGate(id, start) =>
      if w.fenced {
        assert t.threads[id].wasActive;
      }
    case CloseWindow(id) =>
      WindowsDoNotRestore(w, e);
      if KeptClosed(w) && w.threads[id].generation == w.entry.live.value.generation {
        assert id in Windows(w.threads, w.threads[id].generation);
      }
    case Commit(id, publishes) =>
      if !w.threads[id].start && !publishes && w.threads[id].wasActive {
        assert t.threads[id].MustRestore?;
      }
    case Abort(id) =>
      if w.threads[id].wasActive {
        assert t.threads[id].MustRestore?;
      }
    case RestoreGate(id) =>
    case StickyStop(id) =>
    case StopWorkGraph =>
    case _ =>
      WindowsDoNotRestore(w, e);
  }

  /** Steps of other operations leave a pending restore pending. */
  lemma WindowsDoNotRestore(w: World, e: Event)
    requires Enabled(w, e) && !e.Commit? && !e.Abort? && !e.RestoreGate?
    ensures WillRestore(w) ==> WillRestore(Apply(w, e))
  {
    if WillRestore(w) {
      var id :| id in w.threads && (w.threads[id].MustRestore? || (w.threads[id].Cleared? && w.threads[id].wasActive));
      assert id in Apply(w, e).threads && Apply(w, e).threads[id] == w.threads[id];
    }
  }

  lemma StepPreserves(w: World, e: Event)
    requires Inv(w) && Enabled(w, e)
    ensures Inv(Apply(w, e))
  {
    CountPreserved(w, e);
    LockPreserved(w, e);
    FencePreserved(w, e);
  }

  lemma {:induction false} ReachableInv(w: World, run: seq<Event>)
    requires Inv(w) && Feasible(w, run)
    ensures Inv(Exec(w, run))
    decreases |run|
  {
    if run != [] {
      StepPreserves(w, run[0]);
      ReachableInv(Apply(w, run[0]), run[1..]);
    }
  }

  // ---------------------------------------------------------------------------
  // Theorems
  // ---------------------------------------------------------------------------

  predicate NoClear(run: seq<Event>) {
    forall i :: 0 <= i < |run| ==> !run[i].ClearGate?
  }

  /** A kept hold keeps admission closed over every run in which no retry or start clears the gate. */
  lemma {:induction false} ClosedUntilCleared(w: World, run: seq<Event>)
    requires Inv(w) && KeptClosed(w) && Feasible(w, run) && NoClear(run)
    ensures KeptClosed(Exec(w, run))
    decreases |run|
  {
    if run != [] {
      KeptHoldSurvives(w, run[0]);
      StepPreserves(w, run[0]);
      ClosedUntilCleared(Apply(w, run[0]), run[1..]);
    }
  }

  lemma KeptHoldSurvives(w: World, e: Event)
    requires Inv(w) && KeptClosed(w) && Enabled(w, e) && !e.ClearGate?
    ensures KeptClosed(Apply(w, e)) && Apply(w, e).entry.live.value.generation == w.entry.live.value.generation
  {
    if e.CloseWindow? && w.threads[e.id].generation == w.entry.live.value.generation {
      assert e.id in Windows(w.threads, w.threads[e.id].generation);
    }
  }

  /** A stop or takeover past its park, the planner's stop and a failed reactivation's restore close the gate for good. */
  lemma StickyStepsCloseTheGate(w: World, e: Event)
    requires Inv(w) && Enabled(w, e) && StaysClosed(e)
    ensures KeptClosed(Apply(w, e))
  {
  }

  /** A successful close leaves the gate closed for good. */
  lemma CloseKeepsTheGateClosed(w: World, id: nat)
    requires Inv(w) && Enabled(w, CloseLoop(id))
    ensures KeptClosed(Apply(w, CloseLoop(id)))
  {
    var g := w.threads[id].generation;
    assert id in Windows(w.threads, g);
    assert Holds(w, g) > 0;
  }

  /**
   A failed close, or a kill window that ends, opens the gate exactly when its hold was the last one of the
   live generation.
   */
  lemma WindowOpensGateIff(w: World, id: nat)
    requires Inv(w) && Enabled(w, CloseWindow(id)) && Closed(w.entry)
    ensures !Closed(Apply(w, CloseWindow(id)).entry) <==>
              w.entry.live.value.generation == w.threads[id].generation && Holds(w, w.threads[id].generation) == 1
  {
  }

  /** A retry that published work, or a start, commits. */
  predicate Reactivates(w: World, id: nat, publishes: bool) {
    Enabled(w, Commit(id, publishes)) && (w.threads[id].start || publishes)
  }

  /** The steps after which the loop is no longer parked by the stop: a close, and a reactivation that commits. */
  predicate Unparks(w: World, e: Event) {
    e.CloseLoop? || (e.Commit? && Reactivates(w, e.id, e.publishes))
  }

  ghost predicate NeverUnparked(w: World, run: seq<Event>)
    requires Feasible(w, run)
    decreases |run|
  {
    run == [] || (!Unparks(w, run[0]) && NeverUnparked(Apply(w, run[0]), run[1..]))
  }

  /** Some stop or takeover closed the gate of the parked loop, and nothing has unparked it since. */
  ghost predicate StoppedAndStillParked(w: World, run: seq<Event>)
    requires Feasible(w, run)
    decreases |run|
  {
    run != []
    && ((run[0].StickyStop? && IsParked(w.status) && NeverUnparked(Apply(w, run[0]), run[1..])) || StoppedAndStillParked(Apply(w, run[0]), run[1..]))
  }

  lemma {:induction false} FencedIff(w: World, run: seq<Event>)
    requires Feasible(w, run)
    ensures Exec(w, run).fenced <==> (w.fenced && NeverUnparked(w, run)) || StoppedAndStillParked(w, run)
    decreases |run|
  {
    hide Enabled, Apply, IsParked, Unparks;
    if run != [] {
      FencedIff(Apply(w, run[0]), run[1..]);
      FenceStep(w, run[0]);
    }
  }

  lemma FenceStep(w: World, e: Event)
    requires Enabled(w, e)
    ensures Apply(w, e).fenced <==> (w.fenced && !Unparks(w, e)) || (e.StickyStop? && IsParked(w.status))
  {
  }

  /**
   A loop that a stop or takeover closed while it was parked, and that nothing unparked
   since, admits no spawn, whatever raced with it, except while a retry or start is under way.
   */
  lemma FencedLoopAdmitsNoSpawn(status: LoopStatus, run: seq<Event>)
    requires Feasible(Init(status), run) && StoppedAndStillParked(Init(status), run)
    ensures var w := Exec(Init(status), run); (forall id :: id in w.threads ==> !Reactivating(w.threads[id])) ==> Closed(w.entry)
  {
    InitInv(status);
    ReachableInv(Init(status), run);
    FencedIff(Init(status), run);
  }

  // ---------------------------------------------------------------------------
  // What the missing lock between stops and reactivations allows
  // ---------------------------------------------------------------------------

  /** A hold for good, or an open window, taken since the gate was last cleared. */
  predicate KeptSince(w: World) {
    exists g :: g in w.kept && g >= w.cleared
  }

  predicate OpenSince(w: World, j: nat) {
    j in w.threads && w.threads[j].Window? && w.threads[j].generation >= w.cleared
  }

  /** The gate is closed exactly when a hold taken since the last clear is outstanding. */
  lemma ClosedIff(w: World)
    requires Fresh(w) && Counted(w)
    ensures Closed(w.entry) <==> exists g: nat :: g >= w.cleared && Holds(w, g) > 0
    ensures Closed(w.entry) <==> KeptSince(w) || exists j :: OpenSince(w, j)
  {
    if Closed(w.entry) {
      var g := w.entry.live.value.generation;
      assert g >= w.cleared && Holds(w, g) > 0;
      if g !in w.kept {
        var j :| j in Windows(w.threads, g);
        assert OpenSince(w, j);
      }
    }
    if KeptSince(w) {
      var g :| g in w.kept && g >= w.cleared;
      assert Holds(w, g) > 0;
    } else if j :| OpenSince(w, j) {
      assert j in Windows(w.threads, w.threads[j].generation);
      assert Holds(w, w.threads[j].generation) > 0;
    }
  }

  /** One commit leaves the reactivated loop without spawns exactly when a hold taken since its clear is outstanding. */
  lemma CommitLeavesClosedIff(w: World, id: nat, publishes: bool)
    requires Inv(w) && Reactivates(w, id, publishes)
    ensures var t := Apply(w, Commit(id, publishes));
            && (t.status.Running? || t.status.Queued?)
            && (Closed(t.entry) <==> exists g: nat :: g >= w.cleared && Holds(w, g) > 0)
  {
    ClosedIff(w);
  }

  /** Someone stopped the loop for good during the run. */
  predicate Stopped(run: seq<Event>) {
    exists i :: 0 <= i < |run| && (run[i].StickyStop? || run[i].StopWorkGraph?)
  }

  /** The last window that j opened during the run is still open at its end. */
  predicate LeftOpen(run: seq<Event>, j: nat)
    decreases |run|
  {
    run != [] && ((run[0].OpenWindow? && run[0].id == j && CloseWindow(j) !in run) || LeftOpen(run[1..], j))
  }

  /** The reactivation id neither commits nor gives up during the run. */
  predicate Pending(run: seq<Event>, id: nat) {
    forall i :: 0 <= i < |run| ==> (run[i].Commit? || run[i].Abort?) ==> run[i].id != id
  }

  /** While a reactivation is under way its lock keeps clears, restores and closes out. */
  lemma OneStepOfOthers(w: World, e: Event, id: nat)
    requires Inv(w) && Enabled(w, e) && id in w.threads && w.threads[id].Cleared? && Pending([e], id)
    ensures var t := Apply(w, e);
            && id in t.threads && t.threads[id] == w.threads[id] && t.cleared == w.cleared
            && !e.ClearGate? && !e.RestoreGate? && !e.CloseLoop?
            && (KeptSince(t) <==> KeptSince(w) || Stopped([e]))
            && forall j :: OpenSince(t, j) <==> (OpenSince(w, j) && e != CloseWindow(j)) || (e.OpenWindow? && e.id == j)
  {
    var t := Apply(w, e);
    assert [e][0] == e;
    if StaysClosed(e) {
      assert t.kept == w.kept + multiset{HoldGeneration(w.entry)};
      assert HoldGeneration(w.entry) in t.kept;
    } else {
      assert t.kept == w.kept;
    }
    if KeptSince(w) {
      var g :| g in w.kept && g >= w.cleared;
      assert g in t.kept;
    }
  }

  lemma {:induction false} RunOfOthers(w: World, run: seq<Event>, id: nat)
    requires Inv(w) && Feasible(w, run) && id in w.threads && w.threads[id].Cleared? && Pending(run, id)
    ensures var t := Exec(w, run);
            && Inv(t) && id in t.threads && t.threads[id] == w.threads[id]
            && (KeptSince(t) <==> KeptSince(w) || Stopped(run))
            && forall j :: OpenSince(t, j) <==> (OpenSince(w, j) && CloseWindow(j) !in run) || LeftOpen(run, j)
    decreases |run|
  {
    hide Inv, Apply, Enabled, KeptSince, OpenSince;
    if run != [] {
      assert Pending([run[0]], id) && Pending(run[1..], id);
      OneStepOfOthers(w, run[0], id);
      StepPreserves(w, run[0]);
      RunOfOthers(Apply(w, run[0]), run[1..], id);
      assert run == [run[0]] + run[1..];
    }
  }

  /**
   Between its clear and its commit a start or a retry can be overtaken.  Over every such
   run the reactivated loop is without spawns exactly when it was stopped for good since
   the clear, or a window opened since is still open.
   */
  lemma ReactivatedButClosedIff(w: World, id: nat, start: bool, run: seq<Event>, publishes: bool)
    requires Inv(w) && Enabled(w, ClearGate(id, start))
    requires var w' := Apply(w, ClearGate(id, start));
             Feasible(w', run) && Pending(run, id) && Reactivates(Exec(w', run), id, publishes)
    ensures var t := Apply(Exec(Apply(w, ClearGate(id, start)), run), Commit(id, publishes));
            && t.status == (if start then Running else Queued)
            && (Closed(t.entry) <==> Stopped(run) || exists j :: LeftOpen(run, j))
  {
    var w' := Apply(w, ClearGate(id, start));
    NothingSinceAClear(w, id, start);
    StepPreserves(w, ClearGate(id, start));
    RunOfOthers(w', run, id);
    var u := Exec(w', run);
    ClosedIff(u);
    if j :| OpenSince(u, j) {
      assert LeftOpen(run, j);
      assert exists j :: LeftOpen(run, j);
    }
  }

  lemma NothingSinceAClear(w: World, id: nat, start: bool)
    requires Inv(w) && Enabled(w, ClearGate(id, start))
    ensures var w' := Apply(w, ClearGate(id, start));
            !KeptSince(w') && forall j :: !OpenSince(w', j)
  {
    var w' := Apply(w, ClearGate(id, start));
    StepPreserves(w, ClearGate(id, start));
    ClosedIff(w');
  }

  lemma Prepend(w: World, e: Event, rest: seq<Event>)
    requires Enabled(w, e) && Feasible(Apply(w, e), rest)
    ensures Feasible(w, [e] + rest) && Exec(w, [e] + rest) == Exec(Apply(w, e), rest)
  {
    assert ([e] + rest)[1..] == rest;
  }

  lemma FourSteps(w: World, a: Event, b: Event, c: Event, d: Event)
    requires Enabled(w, a) && Enabled(Apply(w, a), b) && Enabled(Apply(Apply(w, a), b), c)
    requires Enabled(Apply(Apply(Apply(w, a), b), c), d)
    ensures Feasible(w, [a, b, c, d]) && Exec(w, [a, b, c, d]) == Apply(Apply(Apply(Apply(w, a), b), c), d)
  {
    hide Enabled, Apply;
    var w1 := Apply(w, a);
    var w2 := Apply(w1, b);
    var w3 := Apply(w2, c);
    Prepend(w3, d, []);
    Prepend(w2, c, [d]);
    Prepend(w1, b, [c, d]);
    Prepend(w, a, [b, c, d]);
    assert [a] + [b, c, d] == [a, b, c, d] && [b] + [c, d] == [b, c, d] && [c] + [d] == [c, d] && [d] + [] == [d];
  }

  /** A stop between the clear and the commit: the started loop runs, the retried loop is queued, and neither may spawn. */
  lemma ReactivatedLoopCanStayClosed(start: bool)
    ensures var run := [ClearGate(1, start), Park(2, false), StickyStop(2), Commit(1, true)];
            && Feasible(Init(Paused), run)
            && var w := Exec(Init(Paused), run); w.status == (if start then Running else Queued) && Closed(w.entry)
  {
    FourSteps(Init(Paused), ClearGate(1, start), Park(2, false), StickyStop(2), Commit(1, true));
  }
}
