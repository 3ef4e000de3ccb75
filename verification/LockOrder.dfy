/**
 The two process-wide locks of a request: the per-loop lock, then the same-target lock
 (internal/loops/requeue_guard.go; taken in internal/api/handler.go, handler_loop_retry.go,
 handler_loop_create.go, handler_hitl.go and cmd/looperd/main.go).  Any number of requests
 run at once; draining a process while a lock is held is work, not waiting.
 */
module LockOrder {
  import opened Texts

  datatype Action = LockLoop | LockTarget | FreeTarget | FreeLoop

  /** An answer records under the loop lock, gives it up, and then starts the loop; a reuse may find no loop to lock. */
  datatype Kind = Retry | Start | Takeover | Close | Create | Reuse | Answer

  /** `missing` says that the loop or its target could not be read under the loop lock. */
  datatype Request = Request(kind: Kind, loop: string, target: string, missing: bool)

  function Script(r: Request): seq<Action> {
    match r.kind
    case Retry => Both(r.missing)
    case Start => Both(r.missing)
    case Takeover => Both(r.missing)
    case Reuse => Both(false)
    case Close => [LockLoop, FreeLoop]
    case Create => [LockTarget, FreeTarget]
    case Answer => [LockLoop, FreeLoop] + if r.missing then [] else Both(false)
  }

  function Both(missing: bool): seq<Action> {
    if missing then [LockLoop, FreeLoop] else [LockLoop, LockTarget, FreeTarget, FreeLoop]
  }

  datatype World = World(requests: seq<Request>, at: seq<nat>)

  /** Whether the last of two actions before a point was the first of them. */
  predicate Open(script: seq<Action>, n: nat, lock: Action, free: Action)
    requires n <= |script|
  {
    n > 0 && (script[n - 1] == lock || (script[n - 1] != free && Open(script, n - 1, lock, free)))
  }

  predicate Sized(w: World) {
    |w.requests| == |w.at| && forall i :: 0 <= i < |w.at| ==> w.at[i] <= |Script(w.requests[i])|
  }

  predicate HoldsLoop(w: World, i: nat)
    requires Sized(w) && i < |w.at|
  {
    Open(Script(w.requests[i]), w.at[i], LockLoop, FreeLoop)
  }

  /** A blank target key takes no lock. */
  predicate HoldsTarget(w: World, i: nat)
    requires Sized(w) && i < |w.at|
  {
    TrimSpace(w.requests[i].target) != "" && Open(Script(w.requests[i]), w.at[i], LockTarget, FreeTarget)
  }

  predicate Finished(w: World, i: nat)
    requires Sized(w) && i < |w.at|
  {
    w.at[i] == |Script(w.requests[i])|
  }

  predicate LoopFree(w: World, loop: string)
    requires Sized(w)
  {
    forall j :: 0 <= j < |w.at| && HoldsLoop(w, j) ==> w.requests[j].loop != loop
  }

  predicate TargetFree(w: World, target: string)
    requires Sized(w)
  {
    TrimSpace(target) == "" || forall j :: 0 <= j < |w.at| && HoldsTarget(w, j) ==> w.requests[j].target != target
  }

  predicate CanStep(w: World, i: nat)
    requires Sized(w) && i < |w.at|
  {
    !Finished(w, i) && match Script(w.requests[i])[w.at[i]]
                       case LockLoop => LoopFree(w, w.requests[i].loop)
                       case LockTarget => TargetFree(w, w.requests[i].target)
                       case _ => true
  }

  function Step(w: World, i: nat): World
    requires Sized(w) && i < |w.at| && CanStep(w, i)
  {
    w.(at := w.at[i := w.at[i] + 1])
  }

  predicate Feasible(w: World, run: seq<nat>)
    requires Sized(w)
    decreases |run|
  {
    run == [] || (run[0] < |w.at| && CanStep(w, run[0]) && Feasible(Step(w, run[0]), run[1..]))
  }

  function Exec(w: World, run: seq<nat>): (t: World)
    requires Sized(w) && Feasible(w, run)
    ensures Sized(t) && |t.at| == |w.at|
    decreases |run|
  {
    if run == [] then w else Exec(Step(w, run[0]), run[1..])
  }

  // ---------------------------------------------------------------------------
  // Exclusion
  // ---------------------------------------------------------------------------

  predicate Exclusive(w: World)
    requires Sized(w)
  {
    forall i, j :: 0 <= i < j < |w.at| ==>
      && !(HoldsLoop(w, i) && HoldsLoop(w, j) && w.requests[i].loop == w.requests[j].loop)
      && !(HoldsTarget(w, i) && HoldsTarget(w, j) && w.requests[i].target == w.requests[j].target)
  }

  /** A step changes what its own request holds, by its action, and nothing else. */
  lemma StepHolds(w: World, i: nat)
    requires Sized(w) && i < |w.at| && CanStep(w, i)
    ensures var t := Step(w, i);
            var action := Script(w.requests[i])[w.at[i]];
            && HoldsLoop(t, i) == (action.LockLoop? || (!action.FreeLoop? && HoldsLoop(w, i)))
            && HoldsTarget(t, i) == (TrimSpace(w.requests[i].target) != "" && (action.LockTarget? || (!action.FreeTarget? && HoldsTarget(w, i))))
            && (forall j :: 0 <= j < |w.at| && j != i ==> HoldsLoop(t, j) == HoldsLoop(w, j) && HoldsTarget(t, j) == HoldsTarget(w, j))
  {
    hide Script;
  }

  lemma StepKeepsExclusive(w: World, i: nat)
    requires Sized(w) && i < |w.at| && CanStep(w, i) && Exclusive(w)
    ensures Exclusive(Step(w, i))
  {
    hide Script, HoldsLoop, HoldsTarget;
    StepHolds(w, i);
    TargetIsNamed(w, i);
  }

  lemma TargetIsNamed(w: World, i: nat)
    requires Sized(w) && i < |w.at| && CanStep(w, i)
    ensures HoldsTarget(Step(w, i), i) ==> TrimSpace(w.requests[i].target) != ""
  {
  }

  // ---------------------------------------------------------------------------
  // Progress
  // ---------------------------------------------------------------------------

  /** Every request takes the loop lock holding nothing, the target lock holding no target, and ends holding nothing. */
  lemma ScriptsAreOrdered(r: Request, n: nat)
    requires n <= |Script(r)|
    ensures var s := Script(r);
            var loop, target := Open(s, n, LockLoop, FreeLoop), Open(s, n, LockTarget, FreeTarget);
            && (n == |s| ==> !loop && !target)
            && (n < |s| && s[n] == LockLoop ==> !loop && !target)
            && (n < |s| && s[n] == LockTarget ==> !target)
  {
    var s := Script(r);
    assert n > 0 ==> s[n - 1] == s[n - 1];
    if n >= 1 { OpenStep(s, 1); }
    if n >= 2 { OpenStep(s, 2); }
    if n >= 3 { OpenStep(s, 3); }
    if n >= 4 { OpenStep(s, 4); }
    if n >= 5 { OpenStep(s, 5); }
    if n >= 6 { OpenStep(s, 6); }
  }

  /** Both locks, the loop's, or the target's, at some point of the script. */
  predicate EverHolds(r: Request, loop: bool, target: bool) {
    exists n :: 0 <= n <= |Script(r)| && Open(Script(r), n, LockLoop, FreeLoop) == loop && Open(Script(r), n, LockTarget, FreeTarget) == target
  }

  /**
   What each request works under: retry, start, takeover and reuse under both locks unless
   nothing was there to work on, a close under the loop's, a create under the target's, and
   an answer first under the loop's and then, when it starts the loop, under both.
   */
  lemma WorkIsLocked(r: Request)
    ensures EverHolds(r, true, false) <==> !r.kind.Create?
    ensures EverHolds(r, true, true) <==> r.kind.Reuse? || (r.kind in {Retry, Start, Takeover, Answer} && !r.missing)
    ensures EverHolds(r, false, true) <==> r.kind.Create?
  {
    var s := Script(r);
    if |s| >= 1 { OpenStep(s, 1); }
    if |s| >= 2 { OpenStep(s, 2); }
    if |s| >= 3 { OpenStep(s, 3); }
    if |s| >= 4 { OpenStep(s, 4); }
    if |s| >= 5 { OpenStep(s, 5); }
    if |s| >= 6 { OpenStep(s, 6); }
    var both := if r.kind.Answer? then 4 else 2;
    if r.kind.Reuse? || (r.kind in {Retry, Start, Takeover, Answer} && !r.missing) {
      assert Open(s, both, LockLoop, FreeLoop) && Open(s, both, LockTarget, FreeTarget);
    }
    assert Open(s, 1, LockLoop, FreeLoop) == !r.kind.Create? && Open(s, 1, LockTarget, FreeTarget) == r.kind.Create?;
  }

  lemma OpenStep(s: seq<Action>, n: nat)
    requires 0 < n <= |s|
    ensures Open(s, n, LockLoop, FreeLoop) == (s[n - 1] == LockLoop || (s[n - 1] != FreeLoop && Open(s, n - 1, LockLoop, FreeLoop)))
    ensures Open(s, n, LockTarget, FreeTarget) == (s[n - 1] == LockTarget || (s[n - 1] != FreeTarget && Open(s, n - 1, LockTarget, FreeTarget)))
  {
  }

  /** While any request is unfinished, some request can take its next step. */
  lemma SomeRequestCanProceed(w: World, i: nat) returns (j: nat)
    requires Sized(w) && i < |w.at| && !Finished(w, i)
    ensures j < |w.at| && CanStep(w, j)
  {
    if k: nat :| k < |w.at| && HoldsTarget(w, k) {
      ScriptsAreOrdered(w.requests[k], w.at[k]);
      j := k;
    } else if k: nat :| k < |w.at| && HoldsLoop(w, k) {
      ScriptsAreOrdered(w.requests[k], w.at[k]);
      j := k;
    } else {
      j := i;
    }
  }

  function Sum(s: seq<nat>): nat {
    if s == [] then 0 else Sum(s[..|s| - 1]) + s[|s| - 1]
  }

  lemma {:induction false} SumLess(s: seq<nat>, i: nat)
    requires i < |s| && s[i] > 0
    ensures Sum(s[i := s[i] - 1]) == Sum(s) - 1
    decreases |s|
  {
    var n := |s| - 1;
    if i < n {
      SumLess(s[..n], i);
      assert s[i := s[i] - 1][..n] == s[..n][i := s[i] - 1];
    } else {
      assert s[i := s[i] - 1][..n] == s[..n];
    }
  }

  /** How many steps each request still has, and all of them together. */
  function StepsLeft(w: World): seq<nat>
    requires Sized(w)
  {
    seq(|w.at|, i requires 0 <= i < |w.at| => |Script(w.requests[i])| - w.at[i])
  }

  function Left(w: World): nat
    requires Sized(w)
  {
    Sum(StepsLeft(w))
  }

  lemma StepLeavesLess(w: World, i: nat)
    requires Sized(w) && i < |w.at| && CanStep(w, i)
    ensures Left(Step(w, i)) == Left(w) - 1
  {
    hide Script, CanStep;
    var left := StepsLeft(w);
    assert left[i] > 0 by {
      UnfinishedHasSteps(w, i);
    }
    SumLess(left, i);
    assert StepsLeft(Step(w, i)) == left[i := left[i] - 1];
  }

  lemma UnfinishedHasSteps(w: World, i: nat)
    requires Sized(w) && i < |w.at| && CanStep(w, i)
    ensures w.at[i] < |Script(w.requests[i])|
  {
  }

  predicate AllFinished(w: World)
    requires Sized(w)
  {
    forall i :: 0 <= i < |w.at| ==> Finished(w, i)
  }

  /** No deadlock: from every state all requests can be brought to their end, whatever was done before. */
  lemma {:induction false} EveryRequestCanFinish(w: World) returns (run: seq<nat>)
    requires Sized(w)
    ensures Feasible(w, run) && AllFinished(Exec(w, run))
    decreases Left(w)
  {
    if i: nat :| i < |w.at| && !Finished(w, i) {
      var j := SomeRequestCanProceed(w, i);
      StepLeavesLess(w, j);
      var rest := EveryRequestCanFinish(Step(w, j));
      run := [j] + rest;
      assert run[1..] == rest;
    } else {
      run := [];
    }
  }

  /** Nor can requests go on for ever: every run is bounded by what is left to do. */
  lemma {:induction false} RunsAreBounded(w: World, run: seq<nat>)
    requires Sized(w) && Feasible(w, run)
    ensures |run| <= Left(w)
    decreases |run|
  {
    if run != [] {
      StepLeavesLess(w, run[0]);
      RunsAreBounded(Step(w, run[0]), run[1..]);
    }
  }

  /** Over every run from the start no two requests hold one lock. */
  lemma {:induction false} ExclusionOverRuns(w: World, run: seq<nat>)
    requires Sized(w) && Exclusive(w) && Feasible(w, run)
    ensures Exclusive(Exec(w, run))
    decreases |run|
  {
    if run != [] {
      StepKeepsExclusive(w, run[0]);
      ExclusionOverRuns(Step(w, run[0]), run[1..]);
    }
  }
}
