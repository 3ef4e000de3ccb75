/**
 Stop-all (cmd/looperd/main.go, stopAllLoops and collectStopAllCandidates): who is stopped,
 in which order, and how the outcomes of a loop's executions fold into one item.
 */
module StopAll {
  import opened LoopStatuses
  import opened QueueItems
  import opened Wrappers

  datatype ExecStatus = ExecRunning | ExecCancelling | ExecOther

  datatype Loop = Loop(id: string, seqNo: int, status: LoopStatus)

  datatype Run = Run(id: string, loopId: string, status: string)

  /** `loopId` is empty when the record has none. */
  datatype Execution = Execution(id: string, loopId: string, runId: Option<string>, status: ExecStatus)

  datatype Stored = Stored(loops: seq<Loop>, runs: seq<Run>, executions: seq<Execution>, queue: seq<QueueItem>)

  datatype Candidate = Candidate(loop: Loop, run: Option<Run>, executions: seq<Execution>, activeQueue: bool)

  predicate Keyed(x: Stored) {
    && (forall i, j :: 0 <= i < j < |x.loops| ==> x.loops[i].id != x.loops[j].id)
    && (forall i, j :: 0 <= i < j < |x.runs| ==> x.runs[i].id != x.runs[j].id)
  }

  predicate StopAllStatus(s: LoopStatus) {
    s.Queued? || s.Running? || s.Waiting?
  }

  // ---------------------------------------------------------------------------
  // The order of candidates
  // ---------------------------------------------------------------------------

  predicate TextBefore(a: string, b: string) {
    b != "" && (a == "" || a[0] < b[0] || (a[0] == b[0] && TextBefore(a[1..], b[1..])))
  }

  predicate Before(a: Loop, b: Loop) {
    a.seqNo < b.seqNo || (a.seqNo == b.seqNo && TextBefore(a.id, b.id))
  }

  lemma {:induction false} TextOrder(a: string, b: string, c: string)
    ensures TextBefore(a, b) && TextBefore(b, c) ==> TextBefore(a, c)
    ensures a == b || TextBefore(a, b) || TextBefore(b, a)
    ensures !(TextBefore(a, b) && TextBefore(b, a)) && !TextBefore(a, a)
  {
    if a != "" {
      if b != "" && c != "" {
        TextOrder(a[1..], b[1..], c[1..]);
      } else if b != "" {
        TextOrder(a[1..], b[1..], "");
      } else {
        TextOrder(a[1..], a[1..], a[1..]);
      }
      assert b != "" && a[0] == b[0] && a[1..] == b[1..] ==> a == b by {
        assert a == [a[0]] + a[1..];
        assert b != "" ==> b == [b[0]] + b[1..];
      }
    }
  }

  lemma LoopOrder(a: Loop, b: Loop, c: Loop)
    ensures Before(a, b) && Before(b, c) ==> Before(a, c)
    ensures a.id == b.id || Before(a, b) || Before(b, a)
    ensures !(Before(a, b) && Before(b, a)) && !Before(a, a)
  {
    TextOrder(a.id, b.id, c.id);
  }

  predicate Ordered(cs: seq<Candidate>) {
    forall i, j :: 0 <= i < j < |cs| ==> Before(cs[i].loop, cs[j].loop)
  }

  /** After k equal characters a ends, or has the smaller one. */
  predicate PartAt(a: string, b: string, k: nat) {
    k <= |a| && k < |b| && a[..k] == b[..k] && (k == |a| || a[k] < b[k])
  }

  lemma {:induction false} WhereTheyPart(a: string, b: string) returns (k: nat)
    requires TextBefore(a, b)
    ensures PartAt(a, b, k)
  {
    k := 0;
    if a != "" && a[0] == b[0] {
      var rest := WhereTheyPart(a[1..], b[1..]);
      k := rest + 1;
      assert a[..k] == [a[0]] + a[1..][..rest] && b[..k] == [b[0]] + b[1..][..rest];
    }
  }

  lemma {:induction false} PartedIsBefore(a: string, b: string, k: nat)
    requires PartAt(a, b, k)
    ensures TextBefore(a, b)
  {
    if k > 0 {
      assert a[..k][0] == b[..k][0] && a[1..][..k - 1] == a[..k][1..] && b[1..][..k - 1] == b[..k][1..];
      PartedIsBefore(a[1..], b[1..], k - 1);
    }
  }

  lemma TextBeforeIff(a: string, b: string)
    ensures TextBefore(a, b) <==> exists k :: PartAt(a, b, k)
  {
    if TextBefore(a, b) {
      var _ := WhereTheyPart(a, b);
    }
    if k :| PartAt(a, b, k) {
      PartedIsBefore(a, b, k);
    }
  }

  /** The candidates come by sequence number, and by id where that is the same. */
  lemma CandidatesAreBySequence(cs: seq<Candidate>, i: nat, j: nat)
    requires Ordered(cs) && i < j < |cs|
    ensures var a, b := cs[i].loop, cs[j].loop;
            a.seqNo < b.seqNo || (a.seqNo == b.seqNo && exists k :: PartAt(a.id, b.id, k))
  {
    TextBeforeIff(cs[i].loop.id, cs[j].loop.id);
  }

  // ---------------------------------------------------------------------------
  // Who is a candidate
  // ---------------------------------------------------------------------------

  predicate HasRunningRun(x: Stored, id: string) {
    exists i :: 0 <= i < |x.runs| && x.runs[i].loopId == id && x.runs[i].status == "running"
  }

  /** The loop an execution belongs to: its own, or else its run's. */
  predicate BelongsTo(x: Stored, e: Execution, id: string) {
    id != "" && if e.loopId != "" then e.loopId == id else RunOf(x, e, id)
  }

  predicate RunOf(x: Stored, e: Execution, id: string) {
    e.runId.Some? && exists i :: 0 <= i < |x.runs| && x.runs[i].id == e.runId.value && x.runs[i].loopId == id
  }

  predicate HasExecution(x: Stored, id: string) {
    exists i :: 0 <= i < |x.executions| && BelongsTo(x, x.executions[i], id)
  }

  predicate ToStop(x: Stored, loop: Loop) {
    HasRunningRun(x, loop.id) || StopAllStatus(loop.status) || HasLiveItem(x.queue, loop.id) || HasExecution(x, loop.id)
  }

  /** The first running run of a loop, or else its first run. */
  function BestRun(runs: seq<Run>, id: string): Option<Run> {
    if runs == [] then None
    else
      var best := BestRun(runs[..|runs| - 1], id);
      var run := runs[|runs| - 1];
      if run.loopId == id && (best.None? || (best.value.status != "running" && run.status == "running")) then Some(run) else best
  }

  function ExecutionsOf(x: Stored, executions: seq<Execution>, id: string): seq<Execution> {
    if executions == [] then []
    else
      var e := executions[|executions| - 1];
      ExecutionsOf(x, executions[..|executions| - 1], id) + if BelongsTo(x, e, id) then [e] else []
  }

  function CandidateOf(x: Stored, loop: Loop): Candidate {
    Candidate(loop, BestRun(x.runs, loop.id), ExecutionsOf(x, x.executions, loop.id), HasLiveItem(x.queue, loop.id))
  }

  // ---------------------------------------------------------------------------
  // Collecting
  // ---------------------------------------------------------------------------

  method IndexLoops(x: Stored) returns (byId: map<string, Loop>)
    requires Keyed(x)
    ensures forall i :: 0 <= i < |x.loops| ==> x.loops[i].id in byId && byId[x.loops[i].id] == x.loops[i]
    ensures forall id :: id in byId ==> byId[id].id == id && byId[id] in x.loops
  {
    byId := map[];
    for n := 0 to |x.loops|
      invariant forall i :: 0 <= i < n ==> x.loops[i].id in byId && byId[x.loops[i].id] == x.loops[i]
      invariant forall id :: id in byId ==> byId[id].id == id && byId[id] in x.loops
    {
      byId := byId[x.loops[n].id := x.loops[n]];
    }
  }

  ghost function BestOrNone(best: map<string, Run>, id: string): Option<Run> {
    if id in best then Some(best[id]) else None
  }

  /** The better of the best run so far and one more. */
  lemma OneRunMore(runs: seq<Run>, n: nat, best: map<string, Run>, id: string)
    requires n < |runs| && BestOrNone(best, id) == BestRun(runs[..n], id)
    ensures var run := runs[n];
            var better := id == run.loopId && (id !in best || (best[id].status != "running" && run.status == "running"));
            BestRun(runs[..n + 1], id) == if better then Some(run) else BestOrNone(best, id)
  {
    assert runs[..n + 1][..n] == runs[..n];
  }

  method IndexRuns(x: Stored) returns (best: map<string, Run>, byId: map<string, Run>)
    requires Keyed(x)
    ensures forall id :: BestOrNone(best, id) == BestRun(x.runs, id)
    ensures forall i :: 0 <= i < |x.runs| ==> x.runs[i].id in byId && byId[x.runs[i].id] == x.runs[i]
    ensures forall id :: id in byId ==> byId[id].id == id && byId[id] in x.runs
  {
    best, byId := map[], map[];
    NoRunsIndexed(x);
    hide BestRun;
    for n := 0 to |x.runs|
      invariant forall id :: BestOrNone(best, id) == BestRun(x.runs[..n], id)
      invariant forall i :: 0 <= i < n ==> x.runs[i].id in byId && byId[x.runs[i].id] == x.runs[i]
      invariant forall id :: id in byId ==> byId[id].id == id && byId[id] in x.runs
    {
      var run := x.runs[n];
      forall id
        ensures BestRun(x.runs[..n + 1], id) ==
                if id == run.loopId && (id !in best || (best[id].status != "running" && run.status == "running")) then Some(run)
                else BestOrNone(best, id)
      {
        OneRunMore(x.runs, n, best, id);
      }
      byId := byId[run.id := run];
      if run.loopId !in best || (best[run.loopId].status != "running" && run.status == "running") {
        best := best[run.loopId := run];
      }
    }
    assert x.runs[..|x.runs|] == x.runs;
  }

  lemma NoRunsIndexed(x: Stored)
    ensures forall id :: BestOrNone(map[], id) == BestRun(x.runs[..0], id)
  {
  }

  ghost function ListOrEmpty(m: map<string, seq<Execution>>, id: string): seq<Execution> {
    if id in m then m[id] else []
  }

  function WithExecution(m: map<string, seq<Execution>>, loopId: string, e: Execution): map<string, seq<Execution>> {
    if loopId == "" then m else m[loopId := (if loopId in m then m[loopId] else []) + [e]]
  }

  /** Adding an execution under the loop it belongs to keeps the groups right. */
  lemma OneExecutionMore(x: Stored, m: map<string, seq<Execution>>, loopId: string, n: nat, id: string)
    requires n < |x.executions|
    requires ListOrEmpty(m, id) == ExecutionsOf(x, x.executions[..n], id)
    requires BelongsTo(x, x.executions[n], id) <==> id != "" && id == loopId
    ensures ListOrEmpty(WithExecution(m, loopId, x.executions[n]), id) == ExecutionsOf(x, x.executions[..n + 1], id)
  {
    hide BelongsTo;
    assert x.executions[..n + 1][..n] == x.executions[..n];
  }

  method IndexExecutions(x: Stored, runs: map<string, Run>) returns (m: map<string, seq<Execution>>)
    requires Keyed(x)
    requires forall i :: 0 <= i < |x.runs| ==> x.runs[i].id in runs && runs[x.runs[i].id] == x.runs[i]
    requires forall id :: id in runs ==> runs[id].id == id && runs[id] in x.runs
    ensures forall id :: ListOrEmpty(m, id) == ExecutionsOf(x, x.executions, id)
    ensures forall id :: id in m ==> m[id] != []
  {
    hide RunOf, ExecutionsOf;
    m := map[];
    NothingIndexed(x);
    for n := 0 to |x.executions|
      invariant forall id :: ListOrEmpty(m, id) == ExecutionsOf(x, x.executions[..n], id)
      invariant forall id :: id in m ==> m[id] != []
    {
      var e := x.executions[n];
      var loopId := e.loopId;
      if loopId == "" && e.runId.Some? && e.runId.value in runs {
        loopId := runs[e.runId.value].loopId;
      }
      ghost var next := WithExecution(m, loopId, e);
      forall id
        ensures ListOrEmpty(next, id) == ExecutionsOf(x, x.executions[..n + 1], id)
      {
        RunLoop(x, e, runs, id);
        OneExecutionMore(x, m, loopId, n, id);
      }
      if loopId != "" {
        m := m[loopId := (if loopId in m then m[loopId] else []) + [e]];
      }
      assert m == next;
    }
    assert x.executions[..|x.executions|] == x.executions;
  }

  lemma NothingIndexed(x: Stored)
    ensures forall id :: ListOrEmpty(map[], id) == ExecutionsOf(x, x.executions[..0], id)
  {
  }

  lemma RunLoop(x: Stored, e: Execution, runs: map<string, Run>, id: string)
    requires Keyed(x)
    requires forall i :: 0 <= i < |x.runs| ==> x.runs[i].id in runs && runs[x.runs[i].id] == x.runs[i]
    requires forall id :: id in runs ==> runs[id].id == id && runs[id] in x.runs
    ensures RunOf(x, e, id) <==> e.runId.Some? && e.runId.value in runs && runs[e.runId.value].loopId == id
  {
    if e.runId.Some? && e.runId.value in runs {
      var i :| 0 <= i < |x.runs| && x.runs[i] == runs[e.runId.value];
      assert x.runs[i].id == e.runId.value;
    }
  }

  method ActiveIds(x: Stored, executions: map<string, seq<Execution>>) returns (ids: set<string>)
    ensures forall id :: id in ids <==>
              HasRunningRun(x, id) || HasLiveItem(x.queue, id) || id in executions
              || exists i :: 0 <= i < |x.loops| && x.loops[i].id == id && StopAllStatus(x.loops[i].status)
  {
    ids := {};
    for n := 0 to |x.runs|
      invariant forall id :: id in ids <==>
                  exists i :: 0 <= i < n && x.runs[i].loopId == id && x.runs[i].status == "running"
    {
      if x.runs[n].status == "running" {
        ids := ids + {x.runs[n].loopId};
      }
    }
    for n := 0 to |x.loops|
      invariant forall id :: id in ids <==>
                  HasRunningRun(x, id) || exists i :: 0 <= i < n && x.loops[i].id == id && StopAllStatus(x.loops[i].status)
    {
      if StopAllStatus(x.loops[n].status) {
        ids := ids + {x.loops[n].id};
      }
    }
    var queued := QueuedIds(x.queue);
    ids := ids + queued + executions.Keys;
  }

  /** Places one more candidate where it belongs. */
  method Place(cs: seq<Candidate>, c: Candidate) returns (r: seq<Candidate>)
    requires Ordered(cs) && forall k :: 0 <= k < |cs| ==> cs[k].loop.id != c.loop.id
    ensures Ordered(r) && forall d :: d in r <==> d in cs || d == c
  {
    var n := 0;
    while n < |cs| && Before(cs[n].loop, c.loop)
      invariant 0 <= n <= |cs|
      invariant forall k :: 0 <= k < n ==> Before(cs[k].loop, c.loop)
    {
      n := n + 1;
    }
    r := cs[..n] + [c] + cs[n..];
    forall k | n <= k < |cs|
      ensures Before(c.loop, cs[k].loop)
    {
      LoopOrder(c.loop, cs[n].loop, cs[k].loop);
      LoopOrder(cs[n].loop, c.loop, c.loop);
    }
  }

  /** The candidates are exactly the stored loops to stop, each once, in order. */
  ghost predicate Collected(x: Stored, cs: seq<Candidate>) {
    && Ordered(cs)
    && (forall k :: 0 <= k < |cs| ==> cs[k].loop in x.loops && ToStop(x, cs[k].loop) && cs[k] == CandidateOf(x, cs[k].loop))
    && (forall i :: 0 <= i < |x.loops| && ToStop(x, x.loops[i]) ==> CandidateOf(x, x.loops[i]) in cs)
  }

  lemma {:induction false} ExecutionsNonEmptyIff(x: Stored, executions: seq<Execution>, id: string)
    ensures ExecutionsOf(x, executions, id) != [] <==>
              exists i :: 0 <= i < |executions| && BelongsTo(x, executions[i], id)
  {
    if executions != [] {
      var n := |executions| - 1;
      var front := executions[..n];
      ExecutionsNonEmptyIff(x, front, id);
      if ExecutionsOf(x, front, id) != [] {
        var i :| 0 <= i < n && BelongsTo(x, front[i], id);
        assert BelongsTo(x, executions[i], id);
      }
      if BelongsTo(x, executions[n], id) {
      } else if i :| 0 <= i < |executions| && BelongsTo(x, executions[i], id) {
        assert BelongsTo(x, front[i], id);
      }
    }
  }

  method MakeCandidate(x: Stored, loop: Loop, best: map<string, Run>, executions: map<string, seq<Execution>>,
      queued: set<string>)
    returns (c: Candidate)
    requires BestOrNone(best, loop.id) == BestRun(x.runs, loop.id)
    requires ListOrEmpty(executions, loop.id) == ExecutionsOf(x, x.executions, loop.id)
    requires loop.id in queued <==> HasLiveItem(x.queue, loop.id)
    ensures c == CandidateOf(x, loop)
  {
    c := Candidate(loop, None, [], loop.id in queued);
    if loop.id in best {
      c := c.(run := Some(best[loop.id]));
    }
    if loop.id in executions {
      c := c.(executions := executions[loop.id]);
    }
  }

  /** What the collected loops have been reduced to so far: candidates for the stored loops among `done`. */
  ghost predicate Partly(x: Stored, byId: map<string, Loop>, done: set<string>, cs: seq<Candidate>) {
    && Ordered(cs)
    && (forall k :: 0 <= k < |cs| ==> cs[k].loop.id in done && cs[k].loop.id in byId && cs[k] == CandidateOf(x, byId[cs[k].loop.id]))
    && (forall id :: id in done && id in byId ==> CandidateOf(x, byId[id]) in cs)
  }

  lemma PlacedIsPartly(x: Stored, byId: map<string, Loop>, done: set<string>, cs: seq<Candidate>, id: string,
      r: seq<Candidate>)
    requires Partly(x, byId, done, cs) && id in byId && byId[id].id == id
    requires Ordered(r) && forall d :: d in r <==> d in cs || d == CandidateOf(x, byId[id])
    ensures Partly(x, byId, done + {id}, r)
  {
    hide Ordered;
    forall k | 0 <= k < |r|
      ensures r[k].loop.id in done + {id} && r[k].loop.id in byId && r[k] == CandidateOf(x, byId[r[k].loop.id])
    {
      assert r[k] in r;
      if r[k] in cs {
        var j :| 0 <= j < |cs| && cs[j] == r[k];
      }
    }
  }

  /** The sort is modelled by placing each candidate in order; the set of ids is walked in any order. */
  method BuildCandidates(x: Stored, byId: map<string, Loop>, ids: set<string>, best: map<string, Run>,
      executions: map<string, seq<Execution>>, queued: set<string>)
    returns (cs: seq<Candidate>)
    requires forall id :: id in byId ==> byId[id].id == id
    requires forall id :: BestOrNone(best, id) == BestRun(x.runs, id)
    requires forall id :: ListOrEmpty(executions, id) == ExecutionsOf(x, x.executions, id)
    requires forall id :: id in queued <==> HasLiveItem(x.queue, id)
    ensures Partly(x, byId, ids, cs)
  {
    hide ExecutionsOf, BestRun, HasLiveItem, Ordered;
    cs := [];
    NothingPlaced(x, byId);
    var rest := ids;
    while rest != {}
      invariant rest <= ids && Partly(x, byId, ids - rest, cs)
      decreases |rest|
    {
      var id :| id in rest;
      ghost var done := ids - rest;
      rest := rest - {id};
      assert ids - rest == done + {id};
      if id !in byId {
        continue;
      }
      var c := MakeCandidate(x, byId[id], best, executions, queued);
      var r := Place(cs, c);
      PlacedIsPartly(x, byId, done, cs, id, r);
      cs := r;
    }
    assert ids - rest == ids;
  }

  lemma NothingPlaced(x: Stored, byId: map<string, Loop>)
    ensures Partly(x, byId, {}, [])
  {
  }

  lemma ToStopIff(x: Stored, executions: map<string, seq<Execution>>, ids: set<string>, i: nat)
    requires Keyed(x) && i < |x.loops|
    requires forall id :: ListOrEmpty(executions, id) == ExecutionsOf(x, x.executions, id)
    requires forall id :: id in executions ==> executions[id] != []
    requires forall id :: id in ids <==>
               HasRunningRun(x, id) || HasLiveItem(x.queue, id) || id in executions
               || exists i :: 0 <= i < |x.loops| && x.loops[i].id == id && StopAllStatus(x.loops[i].status)
    ensures x.loops[i].id in ids <==> ToStop(x, x.loops[i])
  {
    ExecutionsNonEmptyIff(x, x.executions, x.loops[i].id);
    assert ListOrEmpty(executions, x.loops[i].id) == ExecutionsOf(x, x.executions, x.loops[i].id);
  }

  method CollectCandidates(x: Stored) returns (cs: seq<Candidate>)
    requires Keyed(x)
    ensures Collected(x, cs)
  {
    var loopsById := IndexLoops(x);
    var best, runsById := IndexRuns(x);
    var executions := IndexExecutions(x, runsById);
    var ids := ActiveIds(x, executions);
    var queued := QueuedIds(x.queue);
    cs := BuildCandidates(x, loopsById, ids, best, executions, queued);
    forall i | 0 <= i < |x.loops|
      ensures x.loops[i].id in ids <==> ToStop(x, x.loops[i])
    {
      ToStopIff(x, executions, ids, i);
    }
    PartlyIsCollected(x, loopsById, ids, cs);
  }

  lemma PartlyIsCollected(x: Stored, byId: map<string, Loop>, ids: set<string>, cs: seq<Candidate>)
    requires forall i :: 0 <= i < |x.loops| ==> x.loops[i].id in byId && byId[x.loops[i].id] == x.loops[i]
    requires forall id :: id in byId ==> byId[id].id == id && byId[id] in x.loops
    requires forall i :: 0 <= i < |x.loops| ==> (x.loops[i].id in ids <==> ToStop(x, x.loops[i]))
    requires Partly(x, byId, ids, cs)
    ensures Collected(x, cs)
  {
    hide ToStop, ExecutionsOf, BestRun, HasLiveItem;
    forall k | 0 <= k < |cs|
      ensures cs[k].loop in x.loops && ToStop(x, cs[k].loop) && cs[k] == CandidateOf(x, cs[k].loop)
    {
      var loop := byId[cs[k].loop.id];
      assert loop in x.loops;
      var i :| 0 <= i < |x.loops| && x.loops[i] == loop;
      assert x.loops[i].id in ids;
    }
  }

  /** The run a candidate carries: a running one of its loop if there is any, and otherwise its first. */
  lemma {:induction false} BestRunIs(runs: seq<Run>, id: string)
    ensures var best := BestRun(runs, id);
            && (best.None? <==> forall k :: 0 <= k < |runs| ==> runs[k].loopId != id)
            && (best.Some? ==> FirstOf(runs, id, best.value, exists r :: r in runs && r.loopId == id && r.status == "running"))
    decreases |runs|
  {
    if runs != [] {
      var n := |runs| - 1;
      BestRunIs(runs[..n], id);
      assert runs == runs[..n] + [runs[n]];
      if BestRun(runs[..n], id).Some? {
        FirstStays(runs, id, BestRun(runs[..n], id).value, exists r :: r in runs[..n] && r.loopId == id && r.status == "running");
      }
      if BestRun(runs, id) == Some(runs[n]) {
        assert Candidates(runs, id, runs[n].status == "running", n);
      }
    }
  }

  /** `run` is the first run of the loop, or the first running one. */
  predicate FirstOf(runs: seq<Run>, id: string, run: Run, running: bool) {
    exists k :: 0 <= k < |runs| && runs[k] == run && Candidates(runs, id, running, k) && forall j :: 0 <= j < k ==> !Candidates(runs, id, running, j)
  }

  predicate Candidates(runs: seq<Run>, id: string, running: bool, k: nat)
    requires k < |runs|
  {
    runs[k].loopId == id && (running ==> runs[k].status == "running")
  }

  lemma FirstStays(runs: seq<Run>, id: string, run: Run, running: bool)
    requires runs != [] && FirstOf(runs[..|runs| - 1], id, run, running)
    ensures FirstOf(runs, id, run, running)
  {
    var front := runs[..|runs| - 1];
    var k :| 0 <= k < |front| && front[k] == run && Candidates(front, id, running, k) && forall j :: 0 <= j < k ==> !Candidates(front, id, running, j);
    assert Candidates(runs, id, running, k);
    forall j | 0 <= j < k
      ensures !Candidates(runs, id, running, j)
    {
      assert !Candidates(front, id, running, j);
    }
  }

  /** The executions a candidate carries are those of its loop, in stored order. */
  lemma {:induction false} ExecutionsAre(x: Stored, xs: seq<Execution>, ys: seq<Execution>, id: string)
    ensures ExecutionsOf(x, xs + ys, id) == ExecutionsOf(x, xs, id) + ExecutionsOf(x, ys, id)
    ensures forall e :: e in ExecutionsOf(x, ys, id) <==> e in ys && BelongsTo(x, e, id)
    decreases |ys|
  {
    hide BelongsTo;
    if ys == [] {
      assert xs + ys == xs;
    } else {
      var n := |ys| - 1;
      ExecutionsAre(x, xs, ys[..n], id);
      assert (xs + ys)[..|xs + ys| - 1] == xs + ys[..n] && ys == ys[..n] + [ys[n]];
    }
  }

  /** Who is stopped, on what is stored: each loop that runs, waits, is queued, or has an agent or a live queue item. */
  lemma WhoIsStopped(x: Stored, cs: seq<Candidate>, loop: Loop)
    requires Collected(x, cs) && loop in x.loops
    ensures (exists k :: 0 <= k < |cs| && cs[k].loop == loop) <==>
              || loop.status in {Queued, Running, Waiting}
              || QueueItem(Some(loop.id), true) in x.queue
              || (exists r :: r in x.runs && r.loopId == loop.id && r.status == "running")
              || (exists e :: e in x.executions && loop.id != ""
                              && (e.loopId == loop.id
                                  || (e.loopId == "" && e.runId.Some?
                                      && exists r :: r in x.runs && r.id == e.runId.value && r.loopId == loop.id)))
  {
    hide ExecutionsOf, BestRun;
    RunningIff(x, loop.id);
    ItemIff(x, loop.id);
    ExecutionIff(x, loop.id);
    hide HasRunningRun, HasLiveItem, HasExecution;
  }

  lemma RunningIff(x: Stored, id: string)
    ensures HasRunningRun(x, id) <==> exists r :: r in x.runs && r.loopId == id && r.status == "running"
  {
    if i :| 0 <= i < |x.runs| && x.runs[i].loopId == id && x.runs[i].status == "running" {
      assert x.runs[i] in x.runs;
    }
  }

  lemma ItemIff(x: Stored, id: string)
    ensures HasLiveItem(x.queue, id) <==> QueueItem(Some(id), true) in x.queue
  {
    if i :| 0 <= i < |x.queue| && x.queue[i].loopId == Some(id) && x.queue[i].live {
      assert x.queue[i] == QueueItem(Some(id), true);
    }
  }

  lemma ExecutionIff(x: Stored, id: string)
    ensures HasExecution(x, id) <==>
              exists e :: e in x.executions && id != ""
                          && (e.loopId == id
                              || (e.loopId == "" && e.runId.Some? && exists r :: r in x.runs && r.id == e.runId.value && r.loopId == id))
  {
    forall e
      ensures RunOf(x, e, id) <==> e.runId.Some? && exists r :: r in x.runs && r.id == e.runId.value && r.loopId == id
    {
      if e.runId.Some? {
        if i :| 0 <= i < |x.runs| && x.runs[i].id == e.runId.value && x.runs[i].loopId == id {
          assert x.runs[i] in x.runs;
        }
      }
    }
    hide RunOf;
    assert forall i :: 0 <= i < |x.executions| ==> x.executions[i] in x.executions;
    if id != "" {
      assert forall e :: BelongsTo(x, e, id) <==> if e.loopId != "" then e.loopId == id else RunOf(x, e, id);
    }
  }

  // ---------------------------------------------------------------------------
  // Outcomes
  // ---------------------------------------------------------------------------

  datatype Outcome = ProcessSignaled | PausedOnly | AlreadyStopping | AlreadyFinished

  datatype ItemResult = ItemStopped | ItemPaused | ItemFinished | ItemStopping | ItemFailed

  datatype Item = Item(loopId: string, seqNo: int, result: ItemResult, outcome: Option<Outcome>, error: string)

  function ClassifyItem(o: Outcome): ItemResult {
    match o
    case ProcessSignaled => ItemStopped
    case PausedOnly => ItemPaused
    case AlreadyStopping => ItemStopping
    case AlreadyFinished => ItemFinished
  }

  function Rank(r: ItemResult): nat {
    match r
    case ItemFailed => 4
    case ItemPaused => 3
    case ItemStopped => 2
    case ItemStopping => 1
    case ItemFinished => 0
  }

  /** classifyStopAllResult. */
  function Classify(c: Candidate): ItemResult {
    if exists i :: 0 <= i < |c.executions| && c.executions[i].status.ExecRunning? then ItemStopped
    else if (exists i :: 0 <= i < |c.executions| && c.executions[i].status.ExecCancelling?)
            && !StopAllStatus(c.loop.status) && !c.activeQueue then ItemStopping
    else if c.run.Some? && c.run.value.status != "" && c.run.value.status != "running" && !StopAllStatus(c.loop.status) && !c.activeQueue
    then ItemFinished
    else ItemStopped
  }

  method ClassifyCandidate(c: Candidate) returns (r: ItemResult)
    ensures r == Classify(c)
  {
    var running, cancelling := false, false;
    for n := 0 to |c.executions|
      invariant running <==> exists i :: 0 <= i < n && c.executions[i].status.ExecRunning?
      invariant cancelling <==> exists i :: 0 <= i < n && c.executions[i].status.ExecCancelling?
    {
      match c.executions[n].status
      case ExecRunning => running := true;
      case ExecCancelling => cancelling := true;
      case ExecOther =>
    }
    if running {
      return ItemStopped;
    }
    if cancelling && !StopAllStatus(c.loop.status) && !c.activeQueue {
      return ItemStopping;
    }
    if c.run.Some? && c.run.value.status != "" && c.run.value.status != "running" && !StopAllStatus(c.loop.status) && !c.activeQueue {
      return ItemFinished;
    }
    return ItemStopped;
  }

  /** What stopping one execution answered; a failed attempt leaves an outcome behind as well. */
  datatype Answer = StopFailed(message: string, left: Outcome) | StopAnswered(outcome: Outcome)

  /** mergeStopAllItemExecutionOutcome with mergeStopOutcomes. */
  function Merge(item: Item, o: Outcome): Item {
    if Rank(ClassifyItem(o)) > Rank(item.result) then item.(result := ClassifyItem(o), outcome := Some(o)) else item
  }

  function MergeAnswer(item: Item, a: Answer): Item {
    match a
    case StopFailed(message, left) => if item.error == "" then item.(result := ItemFailed, error := message) else Merge(item, left)
    case StopAnswered(o) => Merge(item, o)
  }

  function FoldAnswers(item: Item, answers: seq<Answer>): Item {
    if answers == [] then item else MergeAnswer(FoldAnswers(item, answers[..|answers| - 1]), answers[|answers| - 1])
  }

  /** The loop over a stopped candidate's running executions. */
  method FoldExecutions(item: Item, answers: seq<Answer>) returns (r: Item)
    requires item.result == ItemPaused ==> item.outcome == Some(PausedOnly)
    ensures r == FoldAnswers(item, answers)
  {
    r := item;
    for n := 0 to |answers|
      invariant r == FoldAnswers(item, answers[..n])
      invariant r.result == ItemPaused ==> r.outcome == Some(PausedOnly)
    {
      assert answers[..n + 1][..n] == answers[..n];
      var a := answers[n];
      if a.StopFailed? && r.error == "" {
        r := r.(result := ItemFailed, error := a.message);
        continue;
      }
      var o := if a.StopFailed? then a.left else a.outcome;
      if Rank(ClassifyItem(o)) > Rank(r.result) {
        r := r.(result := ClassifyItem(o), outcome := Some(o));
      }
      if r.result == ItemPaused && r.outcome == Some(ProcessSignaled) {
        r := r.(outcome := Some(PausedOnly));
      }
    }
    assert answers[..|answers|] == answers;
  }

  predicate AnyFails(answers: seq<Answer>) {
    exists a :: a in answers && a.StopFailed?
  }

  /** The first failure that has a message gives the item its error. */
  function FirstMessage(answers: seq<Answer>): string {
    if answers == [] then ""
    else if answers[0].StopFailed? && answers[0].message != "" then answers[0].message
    else FirstMessage(answers[1..])
  }

  lemma {:induction false} MessageInFront(answers: seq<Answer>, a: Answer)
    ensures FirstMessage(answers + [a]) ==
            if FirstMessage(answers) != "" then FirstMessage(answers) else if a.StopFailed? then a.message else ""
  {
    if answers == [] {
      assert [] + [a] == [a];
    } else {
      assert (answers + [a])[1..] == answers[1..] + [a];
      MessageInFront(answers[1..], a);
    }
  }

  lemma FailureInFront(answers: seq<Answer>, a: Answer)
    ensures AnyFails(answers + [a]) <==> AnyFails(answers) || a.StopFailed?
  {
    assert a in answers + [a] && forall b :: b in answers ==> b in answers + [a];
  }

  /** The item fails exactly when some execution did, whatever comes later, and carries the first message there is. */
  lemma {:induction false} FailureIsNeverMasked(item: Item, answers: seq<Answer>)
    requires item.error == ""
    ensures var r := FoldAnswers(item, answers);
            && r.loopId == item.loopId && r.seqNo == item.seqNo
            && (r.result.ItemFailed? <==> item.result.ItemFailed? || AnyFails(answers))
            && r.error == FirstMessage(answers) && (r.error != "" ==> r.result.ItemFailed?)
    decreases |answers|
  {
    if answers != [] {
      hide AnyFails, FirstMessage;
      var front, last := answers[..|answers| - 1], answers[|answers| - 1];
      assert answers == front + [last];
      FailureIsNeverMasked(item, front);
      FailureInFront(front, last);
      MessageInFront(front, last);
    }
  }

  // ---------------------------------------------------------------------------
  // The whole operation
  // ---------------------------------------------------------------------------

  datatype StopAnswer = LoopStopFailed(message: string) | LoopStopped(outcome: Outcome)

  /**
   One candidate's answers: stopping it, its executions, and the candidate as reread, when readable, after a
   failed stop and at the end.
   */
  datatype Attempt = Attempt(stop: StopAnswer, executions: seq<Answer>, refreshed: Option<Candidate>,
      last: Option<Candidate>, refreshError: string)

  predicate Settled(r: ItemResult) {
    r.ItemFinished? || r.ItemStopping?
  }

  function FailedItem(item: Item, a: Attempt): Item
    requires a.stop.LoopStopFailed?
  {
    if a.refreshed.Some? && Settled(Classify(a.refreshed.value)) then item.(result := Classify(a.refreshed.value))
    else item.(result := ItemFailed, error := a.stop.message)
  }

  function StoppedItem(item: Item, a: Attempt): Item
    requires a.stop.LoopStopped?
  {
    FoldAnswers(item.(result := ClassifyItem(a.stop.outcome), outcome := Some(a.stop.outcome)), a.executions)
  }

  /** The last look: a loop found finished is reported so, unless it failed. */
  function LastLook(c: Candidate, item: Item, a: Attempt): Item {
    if item.result.ItemFailed? then item
    else if a.last.None? then item.(result := ItemFailed, error := a.refreshError)
    else if !c.loop.status.Waiting? && Classify(a.last.value).ItemFinished? then item.(result := ItemFinished)
    else item
  }

  function NewItem(c: Candidate): Item {
    Item(c.loop.id, c.loop.seqNo, Classify(c), None, "")
  }

  function ItemOf(c: Candidate, a: Attempt): Item {
    if Settled(Classify(c)) then NewItem(c)
    else LastLook(c, if a.stop.LoopStopFailed? then FailedItem(NewItem(c), a) else StoppedItem(NewItem(c), a), a)
  }

  datatype Summary = Summary(total: nat, stopped: nat, pausedOnly: nat, alreadyFinished: nat, alreadyStopping: nat,
      failed: nat)

  function Count(items: seq<Item>, r: ItemResult): nat {
    if items == [] then 0 else Count(items[..|items| - 1], r) + if items[|items| - 1].result == r then 1 else 0
  }

  // ---------------------------------------------------------------------------
  // What the item says, from the candidate and the answers themselves
  // ---------------------------------------------------------------------------

  predicate HasExecutionIn(c: Candidate, status: ExecStatus) {
    exists e :: e in c.executions && e.status == status
  }

  /** An agent runs, the loop is queued, running or waiting, or a queue item of it is live. */
  predicate IsBusy(c: Candidate) {
    HasExecutionIn(c, ExecRunning) || c.loop.status in {Queued, Running, Waiting} || c.activeQueue
  }

  predicate IsStopping(c: Candidate) {
    !IsBusy(c) && HasExecutionIn(c, ExecCancelling)
  }

  predicate IsOver(c: Candidate) {
    !IsBusy(c) && !HasExecutionIn(c, ExecCancelling) && c.run.Some? && c.run.value.status !in {"", "running"}
  }

  /** A candidate is settled without being stopped exactly when nothing of it is busy and it is stopping or over. */
  lemma ClassifyIff(c: Candidate)
    ensures Classify(c) == ItemStopping <==> IsStopping(c)
    ensures Classify(c) == ItemFinished <==> IsOver(c)
    ensures Classify(c) == ItemStopped <==> !IsStopping(c) && !IsOver(c)
  {
    assert forall i :: 0 <= i < |c.executions| ==> c.executions[i] in c.executions;
  }

  /** Someone answered so: the loop's own stop, or one of its executions. */
  predicate Said(o: Outcome, answers: seq<Answer>, x: Outcome) {
    x == o || StopAnswered(x) in answers
  }

  /** Pausing outweighs a signal, a signal a stop under way, and that a finished agent. */
  function Worst(o: Outcome, answers: seq<Answer>): Outcome {
    if Said(o, answers, PausedOnly) then PausedOnly
    else if Said(o, answers, ProcessSignaled) then ProcessSignaled
    else if Said(o, answers, AlreadyStopping) then AlreadyStopping
    else AlreadyFinished
  }

  function ResultFor(o: Outcome): ItemResult {
    match o
    case PausedOnly => ItemPaused
    case ProcessSignaled => ItemStopped
    case AlreadyStopping => ItemStopping
    case AlreadyFinished => ItemFinished
  }

  lemma {:induction false} WorstOutcomeWins(item: Item, o: Outcome, answers: seq<Answer>)
    requires item.result == ResultFor(o) && item.outcome == Some(o) && !AnyFails(answers)
    ensures FoldAnswers(item, answers) == item.(result := ResultFor(Worst(o, answers)), outcome := Some(Worst(o, answers)))
    decreases |answers|
  {
    if answers != [] {
      var front, last := answers[..|answers| - 1], answers[|answers| - 1];
      assert answers == front + [last];
      FailureInFront(front, last);
      WorstOutcomeWins(item, o, front);
      assert forall x :: Said(o, answers, x) <==> Said(o, front, x) || last == StopAnswered(x);
    }
  }

  /** The last reread: unreadable it fails the item, and it may find the loop over; otherwise the item stays. */
  predicate LookedAgain(c: Candidate, a: Attempt, item: Item, result: ItemResult, outcome: Option<Outcome>) {
    && item.outcome == outcome
    && if a.last.None? then item.result == ItemFailed && item.error == a.refreshError
       else item.error == "" && item.result == if c.loop.status != Waiting && IsOver(a.last.value) then ItemFinished else result
  }

  /**
   What the item of one candidate says.  Only a loop with nothing busy about it is passed
   over; any other carries its stop's answer, worst first, or what failed, or the reread.
   */
  predicate Reports(c: Candidate, a: Attempt, item: Item) {
    && item.loopId == c.loop.id && item.seqNo == c.loop.seqNo
    && if IsStopping(c) || IsOver(c) then
         item.result == (if IsStopping(c) then ItemStopping else ItemFinished) && item.outcome == None && item.error == ""
       else
         match a.stop
         case LoopStopFailed(message) =>
           if a.refreshed.Some? && (IsStopping(a.refreshed.value) || IsOver(a.refreshed.value)) then
             LookedAgain(c, a, item, if IsStopping(a.refreshed.value) then ItemStopping else ItemFinished, None)
           else item.result == ItemFailed && item.error == message
         case LoopStopped(o) =>
           if AnyFails(a.executions) then item.result == ItemFailed && item.error == FirstMessage(a.executions)
           else LookedAgain(c, a, item, ResultFor(Worst(o, a.executions)), Some(Worst(o, a.executions)))
  }

  lemma ItemReports(c: Candidate, a: Attempt)
    ensures Reports(c, a, ItemOf(c, a))
  {
    hide Classify, IsStopping, IsOver, FoldAnswers, AnyFails, Worst;
    ClassifyIff(c);
    OneOfThem(c);
    if a.last.Some? {
      ClassifyIff(a.last.value);
    }
    match a.stop
    case LoopStopFailed(_) =>
      if a.refreshed.Some? {
        ClassifyIff(a.refreshed.value);
        OneOfThem(a.refreshed.value);
      }
    case LoopStopped(o) =>
      var item := NewItem(c).(result := ClassifyItem(o), outcome := Some(o));
      FailureIsNeverMasked(item, a.executions);
      if !AnyFails(a.executions) {
        WorstOutcomeWins(item, o, a.executions);
      }
  }

  lemma OneOfThem(c: Candidate)
    ensures !(IsStopping(c) && IsOver(c))
    ensures IsBusy(c) ==> !IsStopping(c) && !IsOver(c)
  {
  }

  method StopCandidate(c: Candidate, a: Attempt) returns (item: Item)
    ensures item == ItemOf(c, a)
    ensures Reports(c, a, item)
  {
    ItemReports(c, a);
    var result := ClassifyCandidate(c);
    item := Item(c.loop.id, c.loop.seqNo, result, None, "");
    if result.ItemFinished? || result.ItemStopping? {
      return;
    }
    match a.stop {
      case LoopStopFailed(message) =>
        var refreshed := ItemStopped;
        if a.refreshed.Some? {
          refreshed := ClassifyCandidate(a.refreshed.value);
        }
        if refreshed.ItemFinished? || refreshed.ItemStopping? {
          item := item.(result := refreshed);
        } else {
          item := item.(result := ItemFailed, error := message);
        }
      case LoopStopped(outcome) =>
        item := item.(result := ClassifyItem(outcome), outcome := Some(outcome));
        item := FoldExecutions(item, a.executions);
    }
    if item.result.ItemFailed? {
      return;
    }
    if a.last.None? {
      item := item.(result := ItemFailed, error := a.refreshError);
      return;
    }
    var last := ClassifyCandidate(a.last.value);
    if !c.loop.status.Waiting? && last.ItemFinished? {
      item := item.(result := ItemFinished);
    }
  }

  method Summarize(items: seq<Item>) returns (s: Summary)
    ensures s == Summary(|items|, Count(items, ItemStopped), Count(items, ItemPaused), Count(items, ItemFinished), Count(items, ItemStopping), Count(items, ItemFailed))
    ensures s.total == s.stopped + s.pausedOnly + s.alreadyFinished + s.alreadyStopping + s.failed
  {
    s := Summary(0, 0, 0, 0, 0, 0);
    for n := 0 to |items|
      invariant var done := items[..n];
                s == Summary(n, Count(done, ItemStopped), Count(done, ItemPaused), Count(done, ItemFinished), Count(done, ItemStopping), Count(done, ItemFailed))
      invariant s.total == s.stopped + s.pausedOnly + s.alreadyFinished + s.alreadyStopping + s.failed
    {
      assert items[..n + 1][..n] == items[..n];
      s := s.(total := s.total + 1);
      match items[n].result
      case ItemStopped => s := s.(stopped := s.stopped + 1);
      case ItemPaused => s := s.(pausedOnly := s.pausedOnly + 1);
      case ItemFinished => s := s.(alreadyFinished := s.alreadyFinished + 1);
      case ItemStopping => s := s.(alreadyStopping := s.alreadyStopping + 1);
      case ItemFailed => s := s.(failed := s.failed + 1);
    }
    assert items[..|items|] == items;
  }

  /** stopAllLoops: one item per candidate, in order, all accounted for. */
  method StopAllLoops(x: Stored, attempts: map<string, Attempt>) returns (cs: seq<Candidate>, items: seq<Item>,
      summary: Summary)
    requires Keyed(x) && forall i :: 0 <= i < |x.loops| ==> x.loops[i].id in attempts
    ensures Collected(x, cs) && |items| == |cs| == summary.total
    ensures forall i :: 0 <= i < |cs| ==>
              cs[i].loop.id in attempts && items[i] == ItemOf(cs[i], attempts[cs[i].loop.id])
    ensures forall i :: 0 <= i < |cs| ==> cs[i].loop.id in attempts && Reports(cs[i], attempts[cs[i].loop.id], items[i])
    ensures summary.total == summary.stopped + summary.pausedOnly + summary.alreadyFinished + summary.alreadyStopping + summary.failed
    ensures summary.failed == Count(items, ItemFailed)
  {
    hide Reports, ItemOf, Collected;
    cs := CollectCandidates(x);
    items := [];
    for n := 0 to |cs|
      invariant |items| == n
      invariant forall i :: 0 <= i < n ==>
                  cs[i].loop.id in attempts && items[i] == ItemOf(cs[i], attempts[cs[i].loop.id])
      invariant forall i :: 0 <= i < n ==> Reports(cs[i], attempts[cs[i].loop.id], items[i])
    {
      ItemReports(cs[n], attempts[cs[n].loop.id]);
      var item := StopCandidate(cs[n], attempts[cs[n].loop.id]);
      items := items + [item];
    }
    summary := Summarize(items);
  }

  /** An execution that could not be stopped makes the loop's item a failure, to the end of the operation. */
  lemma ExecutionFailureReachesTheItem(c: Candidate, a: Attempt)
    requires !Settled(Classify(c)) && a.stop.LoopStopped? && AnyFails(a.executions)
    ensures ItemOf(c, a).result == ItemFailed && ItemOf(c, a).error == FirstMessage(a.executions)
  {
    FailureIsNeverMasked(NewItem(c).(result := ClassifyItem(a.stop.outcome), outcome := Some(a.stop.outcome)), a.executions);
  }
}
