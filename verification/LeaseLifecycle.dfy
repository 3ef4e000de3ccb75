/**
 The supervisor lease, the containment handle and the terminal row across Start, run
 and the native-resume fallback (internal/agent/executor.go).  Every persist, spawn,
 bind, rebind and kill may fail; the registry may kill a bound handle or cancel the
 lease context between any two steps.
 */
module LeaseLifecycle {
  import opened Wrappers

  /** Pending while Start holds the lease, Owned once the execution holds it. */
  datatype Lease = NoOwner | Pending | Owned | Released | Orphaned

  datatype RowState = NoRow | LiveRow | TerminalRow

  // ---------------------------------------------------------------------------
  // The three guards: when a lease may go, whether a terminal row may be written, who
  // keeps the lease after a failed ownership write
  // ---------------------------------------------------------------------------

  /** releaseLease: an owned lease goes only when no bound handle may still be live. */
  function AfterRelease(lease: Lease, live: bool): Lease {
    if lease.Owned? && !live then Released else lease
  }

  /**
   Start's own lease after a failed ownership write: kept out of the deferred release when the kill was not
   confirmed.
   */
  function AfterReap(lease: Lease, live: bool): Lease {
    if lease.Pending? && live then Orphaned else lease
  }

  class Handle {
    var confirmedDead: bool

    constructor ()
      ensures !confirmedDead
    {
      confirmedDead := false;
    }

    /** Kill and Drain either confirm death or report an error; a confirmed handle is never signalled again. */
    method Drain(confirms: bool) returns (ok: bool)
      modifies this
      ensures confirmedDead == (old(confirmedDead) || confirms)
      ensures ok == confirmedDead
    {
      if confirmedDead {
        return true;
      }
      confirmedDead := confirms;
      ok := confirms;
    }
  }

  class Owner {
    var handle: Handle?
    var lease: Lease

    ghost predicate HandleLive()
      reads this, handle
    {
      handle != null && !handle.confirmedDead
    }

    constructor (lease: Lease)
      ensures this.lease == lease && handle == null
    {
      this.lease := lease;
      handle := null;
    }

    method ReleaseLease()
      modifies this`lease
      ensures lease == AfterRelease(old(lease), HandleLive())
    {
      if lease != Owned {
        return;
      }
      if handle != null && !handle.confirmedDead {
        return;
      }
      lease := Released;
    }

    method EnsureConfirmedDeadBeforeTerminal(drains: bool) returns (ok: bool)
      modifies handle
      ensures ok == !HandleLive()
      ensures HandleLive() == (old(HandleLive()) && !drains)
    {
      if handle == null {
        return true;
      }
      if handle.confirmedDead {
        return true;
      }
      var _ := handle.Drain(drains);
      ok := handle.confirmedDead;
    }

    /** The kill of reapOnOwnershipPersistFailure followed by Start's decision about its lease. */
    method ReapOnOwnershipPersistFailure(kills: bool)
      modifies this`lease, handle
      ensures handle == old(handle)
      ensures HandleLive() == (old(HandleLive()) && !kills)
      ensures lease == AfterReap(old(lease), HandleLive())
    {
      if handle != null {
        var _ := handle.Drain(kills);
      }
      if lease == Pending && handle != null && !handle.confirmedDead {
        lease := Orphaned;
      }
    }
  }

  // ---------------------------------------------------------------------------
  // The step system
  // ---------------------------------------------------------------------------

  datatype Pc =
    | Admitting | Spawning | Respawning | Binding | BindingHandle | Owning | Reaping | StartFailing | StartFailed
    | Waiting | Deciding
    | Rebinding | FallbackSpawning | FallbackBinding | FallbackRebind | FallbackOwning | FallbackReaping | FallbackWaiting
    | Confirming | Finalizing | Deferred | Done

  /** `dead[h]` says that handle h is confirmed dead; `bound` is the execution's current handle. */
  datatype State = State(
    pc: Pc,
    lease: Lease,
    cancelled: bool,
    dead: seq<bool>,
    bound: Option<nat>,
    row: RowState,
    refused: set<nat>,
    abandoned: set<nat>)

  datatype Rebind = RebindAdmitted | RebindRefused | Restricted

  /** One step of the execution's own goroutine with the outcome of what it calls, or of its surroundings. */
  datatype Event =
    | Admit(owner: bool, ok: bool)
    | Spawn(ok: bool, resume: bool)
    | Respawn(ok: bool)
    | Bind(ok: bool)
    | BindHandle(ok: bool, drained: bool)
    | PersistOwnership(ok: bool)
    | Reap(kills: bool)
    | ReleaseStart
    | Exit
    | Decide(fallback: bool)
    | BeginRebind(outcome: Rebind)
    | RebindHandle(ok: bool, drained: bool)
    | Confirm(drains: bool)
    | PersistFinal(ok: bool)
    | RunReturns
    | KillHandle(handle: nat)
    | Cancel

  function Init(): State {
    State(Admitting, NoOwner, false, [], None, NoRow, {}, {})
  }

  predicate BoundLive(s: State) {
    s.bound.Some? && s.bound.value < |s.dead| && !s.dead[s.bound.value]
  }

  predicate Enabled(s: State, e: Event) {
    match e
    case Admit(_, _) => s.pc.Admitting?
    case Spawn(_, _) => s.pc.Spawning? || s.pc.FallbackSpawning?
    case Respawn(_) => s.pc.Respawning?
    case Bind(_) => s.pc.Binding? || s.pc.FallbackBinding?
    case BindHandle(_, _) => s.pc.BindingHandle?
    case PersistOwnership(_) => s.pc.Owning? || s.pc.FallbackOwning?
    case Reap(_) => s.pc.Reaping? || s.pc.FallbackReaping?
    case ReleaseStart => s.pc.StartFailing?
    case Exit => s.pc.Waiting? || s.pc.FallbackWaiting?
    case Decide(_) => s.pc.Deciding?
    case BeginRebind(_) => s.pc.Rebinding?
    case RebindHandle(_, _) => s.pc.FallbackRebind?
    case Confirm(_) => s.pc.Confirming?
    case PersistFinal(_) => s.pc.Finalizing?
    case RunReturns => s.pc.Deferred?
    case KillHandle(h) => h < |s.dead|
    case Cancel => true
  }

  /** The bound handle after a kill or drain that confirms death or does not. */
  function Confirmed(s: State, confirms: bool): State {
    if confirms && s.bound.Some? && s.bound.value < |s.dead| then s.(dead := s.dead[s.bound.value := true]) else s
  }

  function BindNew(s: State): State {
    s.(dead := s.dead + [false],
       bound := Some(|s.dead|),
       abandoned := if BoundLive(s) then s.abandoned + {s.bound.value} else s.abandoned)
  }

  function Apply(s: State, e: Event): State
    requires Enabled(s, e)
  {
    match e
    case Admit(owner, ok) =>
      if !owner then s.(pc := Spawning)
      else if ok then s.(pc := Spawning, lease := Pending)
      else s.(pc := StartFailed)
    case Spawn(ok, resume) =>
      if s.pc.Spawning? then
        if s.cancelled then s.(pc := StartFailing)
        else if ok then s.(pc := Binding)
        else s.(pc := if resume then Respawning else StartFailing)
      else s.(pc := if ok then FallbackBinding else Confirming)
    case Respawn(ok) =>
      s.(pc := if ok && !s.cancelled then Binding else StartFailing)
    case Bind(ok) =>
      if s.pc.Binding? then
        if !ok then s.(pc := StartFailing)
        else BindNew(s).(pc := if s.lease.NoOwner? then Owning else BindingHandle)
      else
        if !ok then s.(pc := Confirming)
        else BindNew(s).(pc := if s.lease.NoOwner? then FallbackOwning else FallbackRebind)
    case BindHandle(ok, drained) =>
      if ok then s.(pc := Owning)
      else
        var s1 := Confirmed(s, drained);
        s1.(pc := StartFailing, refused := if BoundLive(s1) then s.refused + {s.bound.value} else s.refused)
    case PersistOwnership(ok) =>
      if s.pc.Owning? then
        if ok then s.(pc := Waiting, row := LiveRow, lease := if s.lease.Pending? then Owned else s.lease)
        else s.(pc := Reaping)
      else
        if ok then s.(pc := FallbackWaiting) else s.(pc := FallbackReaping)
    case Reap(kills) =>
      var s1 := Confirmed(s, kills);
      if s.pc.Reaping? then s1.(pc := StartFailing, lease := AfterReap(s.lease, BoundLive(s1)))
      else s1.(pc := Deferred)
    case ReleaseStart =>
      s.(pc := StartFailed, lease := if s.lease.Pending? then Released else s.lease)
    case Exit =>
      s.(pc := if s.pc.Waiting? then Deciding else Confirming)
    case Decide(fallback) =>
      s.(pc := if fallback && !s.cancelled then Rebinding else Confirming)
    case BeginRebind(outcome) =>
      if s.cancelled || outcome.RebindRefused? then s.(pc := Confirming)
      else if outcome.Restricted? then s.(pc := Deferred)
      else s.(pc := FallbackSpawning)
    case RebindHandle(ok, drained) =>
      if ok then s.(pc := FallbackOwning) else Confirmed(s, drained).(pc := Confirming)
    case Confirm(drains) =>
      var s1 := Confirmed(s, drains);
      s1.(pc := if BoundLive(s1) then Deferred else Finalizing)
    case PersistFinal(ok) =>
      s.(pc := Deferred, row := if ok then TerminalRow else s.row)
    case RunReturns =>
      s.(pc := Done, lease := AfterRelease(s.lease, BoundLive(s)))
    case KillHandle(h) =>
      s.(dead := s.dead[h := true])
    case Cancel =>
      s.(cancelled := true)
  }

  predicate Feasible(s: State, es: seq<Event>)
    decreases |es|
  {
    es == [] || (Enabled(s, es[0]) && Feasible(Apply(s, es[0]), es[1..]))
  }

  function Exec(s: State, es: seq<Event>): State
    requires Feasible(s, es)
    decreases |es|
  {
    if es == [] then s else Exec(Apply(s, es[0]), es[1..])
  }

  // ---------------------------------------------------------------------------
  // The invariant
  // ---------------------------------------------------------------------------

  predicate InStart(pc: Pc) {
    Unbound(pc) || pc.BindingHandle? || pc.Owning? || pc.Reaping? || pc.StartFailing? || pc.StartFailed?
  }

  predicate Unbound(pc: Pc) {
    pc.Admitting? || pc.Spawning? || pc.Respawning? || pc.Binding?
  }

  predicate Bound(pc: Pc) {
    pc.BindingHandle? || pc.Owning? || pc.Reaping? || !InStart(pc)
  }

  predicate LeaseFits(s: State) {
    match s.pc
    case Admitting => s.lease.NoOwner?
    case Done => s.lease.NoOwner? || s.lease.Owned? || s.lease.Released?
    case StartFailing => s.lease.NoOwner? || s.lease.Pending? || s.lease.Orphaned?
    case StartFailed => s.lease.NoOwner? || s.lease.Released? || s.lease.Orphaned?
    case pc => if InStart(pc) then s.lease.NoOwner? || s.lease.Pending? else s.lease.NoOwner? || s.lease.Owned?
  }

  predicate Inv(s: State) {
    && LeaseFits(s)
    && (s.bound.Some? ==> s.bound.value + 1 == |s.dead|)
    && (s.pc.BindingHandle? ==> s.lease.Pending?)
    && (Unbound(s.pc) ==> s.bound.None? && s.dead == [])
    && (Bound(s.pc) ==> s.bound.Some?)
    && (s.bound.None? ==> s.dead == [])
    && (s.refused != {} ==> s.pc.StartFailing? || s.pc.StartFailed?)
    && (s.pc.StartFailing? && BoundLive(s) && !s.lease.NoOwner? ==> s.lease.Orphaned? || s.bound.value in s.refused)
    && (s.pc.Finalizing? ==> !BoundLive(s))
    && (s.row.TerminalRow? ==> (s.pc.Deferred? || s.pc.Done?) && !BoundLive(s))
    && (s.lease.Released? && BoundLive(s) ==> s.bound.value in s.refused)
    && (s.refused != {} ==> s.bound.Some? && s.refused == {s.bound.value} && (s.lease.Pending? || s.lease.Released?))
    && (forall h :: 0 <= h < |s.dead| && !s.dead[h] ==> s.bound == Some(h) || h in s.abandoned)
  }

  lemma SpawnPreserves(s: State, e: Event)
    requires Inv(s) && Enabled(s, e) && InStart(s.pc)
    requires e.Admit? || e.Spawn? || e.Respawn? || e.Bind? || e.ReleaseStart?
    ensures Inv(Apply(s, e))
  {
  }

  lemma OwnPreserves(s: State, e: Event)
    requires Inv(s) && Enabled(s, e) && InStart(s.pc)
    requires e.BindHandle? || e.PersistOwnership? || e.Reap?
    ensures Inv(Apply(s, e))
  {
  }

  lemma FallbackPreserves(s: State, e: Event)
    requires Inv(s) && Enabled(s, e) && (e.BeginRebind? || e.Spawn? || e.Bind? || e.RebindHandle? || e.PersistOwnership? || e.Reap?)
    requires !InStart(s.pc)
    ensures Inv(Apply(s, e))
  {
  }

  lemma EndPreserves(s: State, e: Event)
    requires Inv(s) && Enabled(s, e) && !InStart(s.pc)
    requires e.Exit? || e.Decide? || e.Confirm? || e.PersistFinal? || e.RunReturns?
    ensures Inv(Apply(s, e))
  {
  }

  lemma SurroundingsPreserve(s: State, e: Event)
    requires Inv(s) && Enabled(s, e) && (e.KillHandle? || e.Cancel?)
    ensures Inv(Apply(s, e))
  {
  }

  lemma StepPreserves(s: State, e: Event)
    requires Inv(s) && Enabled(s, e)
    ensures Inv(Apply(s, e))
  {
    if e.KillHandle? || e.Cancel? {
      SurroundingsPreserve(s, e);
    } else if InStart(s.pc) {
      if e.BindHandle? || e.PersistOwnership? || e.Reap? {
        OwnPreserves(s, e);
      } else {
        SpawnPreserves(s, e);
      }
    } else if e.Exit? || e.Decide? || e.Confirm? || e.PersistFinal? || e.RunReturns? {
      EndPreserves(s, e);
    } else {
      FallbackPreserves(s, e);
    }
  }

  lemma {:induction false} Reachable(s: State, es: seq<Event>)
    requires Inv(s) && Feasible(s, es)
    ensures Inv(Exec(s, es))
    decreases |es|
  {
    if es != [] {
      StepPreserves(s, es[0]);
      Reachable(Apply(s, es[0]), es[1..]);
    }
  }

  // ---------------------------------------------------------------------------
  // Main results
  // ---------------------------------------------------------------------------

  /** Start has failed over a handle that is dead or was never bound; it binds no other. */
  predicate FailedOverDead(s: State) {
    (s.pc.StartFailing? || s.pc.StartFailed?) && !BoundLive(s)
  }

  lemma {:induction false} RefusalLasts(s: State, es: seq<Event>)
    requires Inv(s) && Feasible(s, es)
    ensures s.refused != {} ==> Exec(s, es).refused != {}
    ensures FailedOverDead(s) ==> FailedOverDead(Exec(s, es))
    decreases |es|
  {
    if es != [] {
      StepPreserves(s, es[0]);
      RefusalLasts(Apply(s, es[0]), es[1..]);
    }
  }

  /** A live bound handle counts as refused exactly when the run has an undrained refusal. */
  lemma {:induction false} RefusedIff(s: State, es: seq<Event>)
    requires Inv(s) && Feasible(s, es) && s.refused == {}
    ensures BoundLive(Exec(s, es)) ==> (Exec(s, es).refused != {} <==> BindHandle(false, false) in es)
    decreases |es|
  {
    if es != [] {
      var s1 := Apply(s, es[0]);
      StepPreserves(s, es[0]);
      if es[0] == BindHandle(false, false) {
        RefusalLasts(s1, es[1..]);
      } else {
        RefusedIff(s1, es[1..]);
      }
    }
  }

  /**
   In every reachable state a terminal row means that the bound handle is confirmed dead.
   A released lease means the same, except on one path: the lease is gone from a live
   handle exactly when Start failed after BindHandle refused the handle without draining
   it, and nothing has killed it since.
   */
  lemma LeaseAndTerminalRowAreSafe(es: seq<Event>)
    requires Feasible(Init(), es)
    ensures var s := Exec(Init(), es);
            && (s.row.TerminalRow? ==> !BoundLive(s))
            && (s.lease.Released? && BoundLive(s) <==> s.pc.StartFailed? && BoundLive(s) && BindHandle(false, false) in es)
  {
    Reachable(Init(), es);
    RefusedIff(Init(), es);
  }

  /** The terminal row can only be written in a state whose bound handle is confirmed dead. */
  lemma TerminalWriteNeedsConfirmedDeath(es: seq<Event>, ok: bool)
    requires Feasible(Init(), es)
    requires Enabled(Exec(Init(), es), PersistFinal(ok))
    ensures var s := Exec(Init(), es);
            s.bound.Some? && s.bound.value < |s.dead| && s.dead[s.bound.value]
  {
    Reachable(Init(), es);
  }

  /** Once Start or run is over, the lease is gone from a live handle exactly when BindHandle left it undrained. */
  lemma ReleasedWhileLiveIff(es: seq<Event>)
    requires Feasible(Init(), es)
    requires var s := Exec(Init(), es); (s.pc.StartFailed? || s.pc.Done?) && BoundLive(s)
    ensures var s := Exec(Init(), es);
            s.lease.Released? <==> s.bound.value in s.refused
  {
    Reachable(Init(), es);
  }

  /** A refusal always drains, as the lease contract says: then the lease claim holds without exception. */
  predicate BindContract(es: seq<Event>) {
    forall i :: 0 <= i < |es| && es[i].BindHandle? && !es[i].ok ==> es[i].drained
  }

  lemma {:induction false} ContractKeepsRefusedEmpty(s: State, es: seq<Event>)
    requires Inv(s) && Feasible(s, es) && BindContract(es) && s.refused == {}
    ensures Exec(s, es).refused == {}
    decreases |es|
  {
    if es != [] {
      StepPreserves(s, es[0]);
      ContractKeepsRefusedEmpty(Apply(s, es[0]), es[1..]);
    }
  }

  lemma ContractGivesLeaseSafety(es: seq<Event>)
    requires Feasible(Init(), es) && BindContract(es)
    ensures var s := Exec(Init(), es);
            s.lease.Released? ==> !BoundLive(s)
  {
    Reachable(Init(), es);
    ContractKeepsRefusedEmpty(Init(), es);
  }

  /** A lease is kept at the end of a run, or orphaned by Start, only over a handle that is live at that moment. */
  lemma KeptOnlyOverLiveHandle(es: seq<Event>, e: Event)
    requires Feasible(Init(), es)
    requires var s := Exec(Init(), es); Enabled(s, e) && !s.lease.NoOwner?
    requires e.RunReturns? || (e.Reap? && Exec(Init(), es).pc.Reaping?)
    ensures var s, s' := Exec(Init(), es), Apply(Exec(Init(), es), e);
            && (e.RunReturns? ==> (s'.lease.Released? <==> !BoundLive(s')))
            && (e.Reap? ==> (s'.lease.Orphaned? <==> BoundLive(s')))
  {
    Reachable(Init(), es);
  }

  /** A replaced handle was bound before the current one. */
  predicate ReplacedInv(s: State) {
    forall h :: h in s.abandoned ==> h < |s.dead| && s.bound != Some(h)
  }

  /** Once replaced, a handle dies only when the registry kills it. */
  lemma ReplacedStep(s: State, e: Event, h: nat)
    requires (s.bound.Some? ==> s.bound.value + 1 == |s.dead|) && ReplacedInv(s) && Enabled(s, e)
    ensures var s' := Apply(s, e);
            && ReplacedInv(s')
            && (h in s'.abandoned && !s'.dead[h]
                <==> (h in s.abandoned && !s.dead[h] && e != KillHandle(h)) || (e == Bind(true) && s.bound == Some(h) && BoundLive(s)))
  {
  }

  /** The fallback bound a new process over h while h was not confirmed dead, and nothing has killed h since. */
  predicate ReplacedLive(s: State, es: seq<Event>, h: nat)
    requires Feasible(s, es)
    decreases |es|
  {
    es != []
    && ((es[0] == Bind(true) && s.bound == Some(h) && BoundLive(s) && KillHandle(h) !in es) || ReplacedLive(Apply(s, es[0]), es[1..], h))
  }

  lemma {:induction false} ReplacedFate(s: State, es: seq<Event>, h: nat)
    requires Inv(s) && ReplacedInv(s) && Feasible(s, es)
    ensures var s' := Exec(s, es);
            && ReplacedInv(s')
            && (h in s'.abandoned && !s'.dead[h] <==> (h in s.abandoned && !s.dead[h] && KillHandle(h) !in es) || ReplacedLive(s, es, h))
    decreases |es|
  {
    hide Enabled, Apply;
    if es != [] {
      ReplacedStep(s, es[0], h);
      StepPreserves(s, es[0]);
      ReplacedFate(Apply(s, es[0]), es[1..], h);
      assert es == [es[0]] + es[1..];
    }
  }

  /** In every reachable state the live processes are the bound one and those the fallback replaced alive. */
  lemma LiveProcessesIff(es: seq<Event>, h: nat)
    requires Feasible(Init(), es)
    ensures var s := Exec(Init(), es);
            h < |s.dead| && !s.dead[h] <==> (s.bound == Some(h) && BoundLive(s)) || ReplacedLive(Init(), es, h)
  {
    Reachable(Init(), es);
    ReplacedFate(Init(), es, h);
  }

  /**
   After a finished run that released its lease, a process is live exactly when the
   fallback replaced it while it was not confirmed dead and nothing has killed it since.
   */
  lemma OnlyReplacedHandlesOutlive(es: seq<Event>, h: nat)
    requires Feasible(Init(), es)
    requires var s := Exec(Init(), es); s.pc.Done? && s.lease.Released?
    ensures var s := Exec(Init(), es);
            && (h < |s.dead| && !s.dead[h] <==> ReplacedLive(Init(), es, h))
            && (ReplacedLive(Init(), es, h) ==> h in s.abandoned && s.bound != Some(h))
  {
    Reachable(Init(), es);
    ReplacedFate(Init(), es, h);
  }

  // ---------------------------------------------------------------------------
  // What a run does reach
  // ---------------------------------------------------------------------------

  /** The row is terminal exactly when its terminal write was stored. */
  lemma {:induction false} TerminalRowIff(s: State, es: seq<Event>)
    requires Inv(s) && Feasible(s, es)
    ensures Exec(s, es).row.TerminalRow? <==> s.row.TerminalRow? || PersistFinal(true) in es
    decreases |es|
  {
    if es != [] {
      StepPreserves(s, es[0]);
      TerminalRowIff(Apply(s, es[0]), es[1..]);
      RowStep(s, es[0]);
      assert es == [es[0]] + es[1..];
    }
  }

  lemma RowStep(s: State, e: Event)
    requires Inv(s) && Enabled(s, e)
    ensures Apply(s, e).row.TerminalRow? <==> s.row.TerminalRow? || e == PersistFinal(true)
  {
  }

  /** The check before the terminal write passes exactly when the bound handle was dead already or the drain confirms it. */
  lemma ConfirmPassesIff(es: seq<Event>, drains: bool)
    requires Feasible(Init(), es) && Enabled(Exec(Init(), es), Confirm(drains))
    ensures var s := Exec(Init(), es);
            var s' := Apply(s, Confirm(drains));
            && (s'.pc.Finalizing? <==> drains || !BoundLive(s)) && (s'.pc.Deferred? <==> !drains && BoundLive(s))
            && (drains ==> !BoundLive(s'))
  {
    Reachable(Init(), es);
  }

  /**
   At its end Start has given its lease back, never had one, or left it orphaned over a
   process whose kill was not confirmed; a run has given it back or keeps it.
   */
  lemma NoLeaseIsForgotten(es: seq<Event>)
    requires Feasible(Init(), es)
    ensures var s := Exec(Init(), es);
            && (s.pc.StartFailed? ==> s.lease in {NoOwner, Released, Orphaned})
            && (s.pc.StartFailed? && s.lease.Orphaned? ==> Reap(false) in es)
            && (s.pc.Done? ==> s.lease in {NoOwner, Released, Owned})
            && (s.lease.NoOwner? <==> !LeaseTaken(es))
  {
    Reachable(Init(), es);
    OrphanedByReap(Init(), es);
    LeaseTakenIff(Init(), es);
  }

  /** Start was given a lease owner that admitted it. */
  predicate LeaseTaken(es: seq<Event>) {
    Admit(true, true) in es
  }

  lemma {:induction false} OrphanedByReap(s: State, es: seq<Event>)
    requires Feasible(s, es)
    ensures Exec(s, es).lease.Orphaned? ==> s.lease.Orphaned? || Reap(false) in es
    decreases |es|
  {
    if es != [] {
      OrphanedByReap(Apply(s, es[0]), es[1..]);
      OrphanStep(s, es[0]);
      assert es == [es[0]] + es[1..];
    }
  }

  lemma OrphanStep(s: State, e: Event)
    requires Enabled(s, e)
    ensures Apply(s, e).lease.Orphaned? ==> s.lease.Orphaned? || e == Reap(false)
  {
  }

  lemma {:induction false} LeaseTakenIff(s: State, es: seq<Event>)
    requires Inv(s) && Feasible(s, es)
    ensures Exec(s, es).lease.NoOwner? <==> s.lease.NoOwner? && !LeaseTaken(es)
    decreases |es|
  {
    if es != [] {
      StepPreserves(s, es[0]);
      LeaseTakenIff(Apply(s, es[0]), es[1..]);
      LeaseStep(s, es[0]);
      assert es == [es[0]] + es[1..];
    }
  }

  lemma LeaseStep(s: State, e: Event)
    requires Inv(s) && Enabled(s, e)
    ensures Apply(s, e).lease.NoOwner? <==> s.lease.NoOwner? && e != Admit(true, true)
  {
  }

  /** What makes Start fail: cancellation or failure before the process is bound, a refused bind, or a failed ownership write. */
  lemma StartFailsIff(s: State, e: Event)
    requires Inv(s) && Enabled(s, e) && InStart(s.pc) && !s.pc.StartFailing? && !s.pc.StartFailed?
    ensures var pc := Apply(s, e).pc;
            pc.StartFailing? || pc.StartFailed? <==>
              || e == Admit(true, false)
              || (e.Spawn? && (s.cancelled || (!e.ok && !e.resume)))
              || (e.Respawn? && (s.cancelled || !e.ok))
              || e == Bind(false) || (e.BindHandle? && !e.ok) || e.Reap?
    ensures Apply(s, e).pc.Reaping? <==> e == PersistOwnership(false) || (s.pc.Reaping? && (e.KillHandle? || e.Cancel?))
  {
  }

  /**
   A fallback process is admitted only after an exit that calls for it, and never once
   cancelled; it is killed exactly when its ownership write fails.
   */
  lemma FallsBackIff(s: State, e: Event)
    requires Inv(s) && Enabled(s, e)
    ensures Apply(s, e).pc.Rebinding? && !s.pc.Rebinding? <==> e == Decide(true) && !s.cancelled
    ensures Apply(s, e).pc.FallbackSpawning? && !s.pc.FallbackSpawning? <==> e == BeginRebind(RebindAdmitted) && !s.cancelled
    ensures Apply(s, e).pc.FallbackReaping? && !s.pc.FallbackReaping? <==> e == PersistOwnership(false) && !InStart(s.pc)
  {
  }

  /**
   A run ends without a terminal write only when the bound handle stays live, the rebind is
   restricted, or the fallback's ownership write failed.
   */
  lemma RunGivesUpIff(s: State, e: Event)
    requires Inv(s) && Enabled(s, e) && !s.pc.Deferred?
    ensures Apply(s, e).pc.Deferred? <==>
              || e.PersistFinal?
              || (e == Confirm(false) && BoundLive(s))
              || (e == BeginRebind(Restricted) && !s.cancelled)
              || (e.Reap? && s.pc.FallbackReaping?)
  {
  }

  /** A process has been spawned, or its spawn has begun, but it is not bound yet. */
  predicate SpawnUnderWay(s: State) {
    s.pc.Binding? || s.pc.FallbackBinding? || s.pc.FallbackSpawning?
  }

  /**
   Once cancelled, no new process is bound, neither by Start, nor by its respawn, nor by the
   fallback, apart from one whose spawn was under way at that moment.
   */
  lemma {:induction false} CancelStopsNewProcesses(s: State, es: seq<Event>)
    requires s.cancelled && Feasible(s, es)
    ensures Exec(s, es).cancelled
    ensures |Exec(s, es).dead| == |s.dead| || (SpawnUnderWay(s) && |Exec(s, es).dead| == |s.dead| + 1)
    ensures !SpawnUnderWay(s) ==> !SpawnUnderWay(Exec(s, es))
    decreases |es|
  {
    if es != [] {
      CancelledStep(s, es[0]);
      CancelStopsNewProcesses(Apply(s, es[0]), es[1..]);
    }
  }

  lemma CancelledStep(s: State, e: Event)
    requires s.cancelled && Enabled(s, e)
    ensures var s' := Apply(s, e);
            && s'.cancelled
            && (SpawnUnderWay(s') ==> SpawnUnderWay(s) && |s'.dead| == |s.dead|)
            && (|s'.dead| == |s.dead| || (SpawnUnderWay(s) && !SpawnUnderWay(s') && |s'.dead| == |s.dead| + 1))
  {
  }

  // ---------------------------------------------------------------------------
  // The two gaps are real
  // ---------------------------------------------------------------------------

  ghost predicate Links(s: State, es: seq<Event>, ss: seq<State>, i: nat)
    requires |ss| == |es| && i < |es|
  {
    var before := if i == 0 then s else ss[i - 1];
    Enabled(before, es[i]) && ss[i] == Apply(before, es[i])
  }

  lemma {:induction false} Unfold(s: State, es: seq<Event>, ss: seq<State>)
    requires |ss| == |es|
    requires forall i :: 0 <= i < |es| ==> Links(s, es, ss, i)
    ensures Feasible(s, es)
    ensures Exec(s, es) == if es == [] then s else ss[|ss| - 1]
    decreases |es|
  {
    if es != [] {
      assert Links(s, es, ss, 0);
      forall i | 0 <= i < |es[1..]|
        ensures Links(ss[0], es[1..], ss[1..], i)
      {
        assert Links(s, es, ss, i + 1);
      }
      Unfold(ss[0], es[1..], ss[1..]);
    }
  }

  function UndrainedRefusal(): seq<Event> {
    [Admit(true, true), Spawn(true, false), Bind(true), BindHandle(false, false), ReleaseStart]
  }

  /** Stop races the bind, the kill is not confirmed, and Start's deferred release drops the lease. */
  lemma RefusedHandleCanLoseItsLease()
    ensures Feasible(Init(), UndrainedRefusal())
    ensures Exec(Init(), UndrainedRefusal()) == State(StartFailed, Released, false, [false], Some(0), NoRow, {0}, {})
  {
    var s1 := Init().(pc := Spawning, lease := Pending);
    var s3 := State(BindingHandle, Pending, false, [false], Some(0), NoRow, {}, {});
    var s4 := s3.(pc := StartFailing, refused := {0});
    Unfold(Init(), UndrainedRefusal(), [s1, s1.(pc := Binding), s3, s4, s4.(pc := StartFailed, lease := Released)]);
  }

  /** A resumed process is spawned, bound and owned; its leader exits and a fallback is admitted. */
  function FirstProcess(): seq<Event> {
    [Admit(true, true), Spawn(true, true), Bind(true), BindHandle(true, true), PersistOwnership(true), Exit, Decide(true),
     BeginRebind(RebindAdmitted)]
  }

  /** The fallback process takes the handle's place and finishes cleanly. */
  function SecondProcess(): seq<Event> {
    [Spawn(true, false), Bind(true), RebindHandle(true, true), PersistOwnership(true), Exit, Confirm(true), PersistFinal(true),
     RunReturns]
  }

  lemma {:induction false} Concat(s: State, es: seq<Event>, fs: seq<Event>)
    requires Feasible(s, es) && Feasible(Exec(s, es), fs)
    ensures Feasible(s, es + fs) && Exec(s, es + fs) == Exec(Exec(s, es), fs)
    decreases |es|
  {
    if es == [] {
      assert es + fs == fs;
    } else {
      assert (es + fs)[1..] == es[1..] + fs;
      Concat(Apply(s, es[0]), es[1..], fs);
    }
  }

  lemma FirstProcessBinds()
    ensures Feasible(Init(), FirstProcess()[..3])
    ensures Exec(Init(), FirstProcess()[..3]) == State(BindingHandle, Pending, false, [false], Some(0), NoRow, {}, {})
  {
    var s1 := Init().(pc := Spawning, lease := Pending);
    var es := [Admit(true, true), Spawn(true, true), Bind(true)];
    Unfold(Init(), es, [s1, s1.(pc := Binding), State(BindingHandle, Pending, false, [false], Some(0), NoRow, {}, {})]);
    assert FirstProcess()[..3] == es;
  }

  lemma FirstProcessGivesWay(s: State)
    requires s == State(BindingHandle, Pending, false, [false], Some(0), NoRow, {}, {})
    ensures Feasible(s, FirstProcess()[3..])
    ensures Exec(s, FirstProcess()[3..]) == State(FallbackSpawning, Owned, false, [false], Some(0), LiveRow, {}, {})
  {
    var s2 := State(Waiting, Owned, false, [false], Some(0), LiveRow, {}, {});
    var es := [BindHandle(true, true), PersistOwnership(true), Exit, Decide(true), BeginRebind(RebindAdmitted)];
    Unfold(s, es, [s.(pc := Owning), s2, s2.(pc := Deciding), s2.(pc := Rebinding), s2.(pc := FallbackSpawning)]);
    assert FirstProcess()[3..] == es;
  }

  lemma SecondProcessBinds(s: State)
    requires s == State(FallbackSpawning, Owned, false, [false], Some(0), LiveRow, {}, {})
    ensures Feasible(s, SecondProcess()[..4])
    ensures Exec(s, SecondProcess()[..4]) == State(FallbackWaiting, Owned, false, [false, false], Some(1), LiveRow, {}, {0})
  {
    var s2 := State(FallbackRebind, Owned, false, [false, false], Some(1), LiveRow, {}, {0});
    var es := [Spawn(true, false), Bind(true), RebindHandle(true, true), PersistOwnership(true)];
    Unfold(s, es, [s.(pc := FallbackBinding), s2, s2.(pc := FallbackOwning), s2.(pc := FallbackWaiting)]);
    assert SecondProcess()[..4] == es;
  }

  lemma SecondProcessEnds(s: State)
    requires s == State(FallbackWaiting, Owned, false, [false, false], Some(1), LiveRow, {}, {0})
    ensures Feasible(s, SecondProcess()[4..])
    ensures Exec(s, SecondProcess()[4..]) == State(Done, Released, false, [false, true], Some(1), TerminalRow, {}, {0})
  {
    var s2 := s.(pc := Finalizing, dead := [false, true]);
    var es := [Exit, Confirm(true), PersistFinal(true), RunReturns];
    Unfold(s, es, [s.(pc := Confirming), s2, s2.(pc := Deferred, row := TerminalRow),
                   s2.(pc := Done, row := TerminalRow, lease := Released)]);
    assert SecondProcess()[4..] == es;
  }

  /** The first process's leader exits, its group stays live, the fallback replaces the handle and finishes cleanly. */
  lemma ReplacedHandleCanOutliveTheLease()
    ensures Feasible(Init(), FirstProcess() + SecondProcess())
    ensures Exec(Init(), FirstProcess() + SecondProcess())
         == State(Done, Released, false, [false, true], Some(1), TerminalRow, {}, {0})
  {
    FirstProcessBinds();
    FirstProcessGivesWay(Exec(Init(), FirstProcess()[..3]));
    Concat(Init(), FirstProcess()[..3], FirstProcess()[3..]);
    assert FirstProcess()[..3] + FirstProcess()[3..] == FirstProcess();
    var s1 := Exec(Init(), FirstProcess());
    SecondProcessBinds(s1);
    SecondProcessEnds(Exec(s1, SecondProcess()[..4]));
    Concat(s1, SecondProcess()[..4], SecondProcess()[4..]);
    assert SecondProcess()[..4] + SecondProcess()[4..] == SecondProcess();
    Concat(Init(), FirstProcess(), SecondProcess());
  }
}
