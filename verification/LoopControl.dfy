/**
 Stop, close, takeover (cmd/looperd/main.go), start (internal/api/handler.go,
 mutateLoopStatus) and retry (internal/api/handler_loop_retry.go) of one loop.  Storage
 and process answers are inputs; each attempted effect is appended to a trace.
 */
module LoopControl {
  import opened LoopStatuses
  import opened Wrappers
  import opened SpawnGate

  datatype Outcome = PausedOnly | AlreadyFinished | AlreadyStopping | ProcessSignaled

  datatype Effect =
    | ReadState(ok: bool)
    | DurablePark(to: LoopStatus, ok: bool)
    | BeginStop(ok: bool)
    | Kill(ok: bool)
    | Match(ok: bool)
    | Signal(ok: bool)
    | Mark(ok: bool)
    | Terminate(ok: bool)

  /** BeginLoopStop cancels leases and drains agents; like a kill or a signal it cannot be taken back. */
  predicate Irreversible(e: Effect) {
    e.BeginStop? || e.Kill? || e.Signal?
  }

  datatype ExecStatus = ExecRunning | ExecCancelling | ExecFinished

  datatype Execution = Execution(status: ExecStatus, hasPid: bool)

  /** haltPreflight; the execution is only looked up for a running latest run. */
  datatype Preflight = NoRunStore | NotRunning | RunningRun(execution: Option<Execution>)

  datatype KillAnswer = Killed | NotOwned | KillFails

  datatype MatchAnswer = MatchFails | Matched(matches: bool, running: bool)

  datatype Answers = Answers(
    takeoverReadsOk: bool,
    preflight: Option<Preflight>,
    parkOk: bool,
    drainOk: bool,
    kill: KillAnswer,
    matcher: Option<MatchAnswer>,
    signal: Option<bool>,
    markOk: bool,
    terminateOk: bool)

  // ---------------------------------------------------------------------------
  // The courses a halt can take
  // ---------------------------------------------------------------------------

  /** What was attempted, and the outcome unless it failed. */
  datatype Course = Course(effects: seq<Effect>, outcome: Option<Outcome>)

  function After(effects: seq<Effect>, c: Course): Course {
    Course(effects + c.effects, c.outcome)
  }

  /** `gate` says that the registry is there and the stop gate was not taken yet. */
  function Gated(a: Answers, gate: bool, rest: Course): Course {
    if !gate then rest
    else if !a.drainOk then Course([BeginStop(false)], None)
    else After([BeginStop(true)], rest)
  }

  function FinishOf(a: Answers, gate: bool, terminal: bool, outcome: Outcome): Course {
    Gated(a, gate,
          if !terminal then Course([], Some(outcome))
          else Course([Terminate(a.terminateOk)], if a.terminateOk then Some(outcome) else None))
  }

  function MarkedOf(a: Answers, terminal: bool): Course {
    if a.markOk then After([Mark(true)], FinishOf(a, false, terminal, ProcessSignaled)) else Course([Mark(false)], None)
  }

  function KillOf(a: Answers, hasPid: bool, terminal: bool, outcome: Outcome): Course {
    match a.kill
    case KillFails => Course([Kill(false)], None)
    case Killed => After([Kill(true)], MarkedOf(a, terminal))
    case NotOwned => After([Kill(true)], if hasPid then Course([], None) else FinishOf(a, false, terminal, outcome))
  }

  function SignalOf(a: Answers, terminal: bool, outcome: Outcome): Course {
    match a.signal
    case None => FinishOf(a, false, terminal, outcome)
    case Some(ok) => if ok then After([Signal(true)], MarkedOf(a, terminal)) else Course([Signal(false)], None)
  }

  /** The fallback without a registry: the stored PID, checked against the live process. */
  function PidOf(a: Answers, hasPid: bool, terminal: bool, outcome: Outcome): Course {
    if !hasPid then FinishOf(a, false, terminal, outcome)
    else
      match a.matcher
      case None => SignalOf(a, terminal, outcome)
      case Some(MatchFails) => Course([Match(false)], None)
      case Some(Matched(matches, running)) =>
        After([Match(true)],
              if !running then FinishOf(a, false, terminal, AlreadyFinished)
              else if !matches then FinishOf(a, false, terminal, outcome)
              else SignalOf(a, terminal, outcome))
  }

  function TargetOf(p: Preflight, a: Answers, registry: bool, gate: bool, terminal: bool): Course {
    match p
    case NoRunStore => FinishOf(a, gate, terminal, PausedOnly)
    case NotRunning => FinishOf(a, gate, terminal, AlreadyFinished)
    case RunningRun(None) => FinishOf(a, gate, terminal, PausedOnly)
    case RunningRun(Some(x)) =>
      if x.status.ExecFinished? then FinishOf(a, gate, terminal, AlreadyFinished)
      else
        var outcome := if x.status.ExecCancelling? then AlreadyStopping else PausedOnly;
        Gated(a, gate, if registry then KillOf(a, x.hasPid, terminal, outcome) else PidOf(a, x.hasPid, terminal, outcome))
  }

  /** haltLoopWithPreflight after its durable pause. */
  function HaltOf(p: Preflight, a: Answers, registry: bool, terminal: bool): Course {
    if terminal then TargetOf(p, a, registry, registry, true)
    else Gated(a, registry, TargetOf(p, a, registry, false, false))
  }

  function StopOf(a: Answers, registry: bool): Course {
    if a.preflight.None? then Course([ReadState(false)], None)
    else if !a.parkOk then Course([ReadState(true), DurablePark(Paused, false)], None)
    else After([ReadState(true), DurablePark(Paused, true)], HaltOf(a.preflight.value, a, registry, false))
  }

  function CloseOf(a: Answers, registry: bool): Course {
    if a.preflight.None? then Course([ReadState(false)], None)
    else After([ReadState(true)], HaltOf(a.preflight.value, a, registry, true))
  }

  function TakeoverOf(a: Answers, registry: bool): Course {
    if !a.takeoverReadsOk then Course([ReadState(false)], None)
    else if a.preflight.None? then Course([ReadState(true), ReadState(false)], None)
    else if !a.parkOk then Course([ReadState(true), ReadState(true), DurablePark(HumanTakeover, false)], None)
    else After([ReadState(true), ReadState(true), DurablePark(HumanTakeover, true)], HaltOf(a.preflight.value, a, registry, false))
  }

  // ---------------------------------------------------------------------------
  // What every course keeps
  // ---------------------------------------------------------------------------

  predicate AllOk(effects: seq<Effect>) {
    forall i :: 0 <= i < |effects| ==> effects[i].ok
  }

  /** Effects of the halt itself: neither a preflight read nor the durable park. */
  predicate Acts(effects: seq<Effect>) {
    forall i :: 0 <= i < |effects| ==> !effects[i].ReadState? && !effects[i].DurablePark?
  }

  /** A live process that the registry does not own is an error of its own. */
  predicate OwnerMissing(p: Preflight, a: Answers, registry: bool) {
    && registry && p.RunningRun? && p.execution.Some? && !p.execution.value.status.ExecFinished?
    && a.kill.NotOwned? && p.execution.value.hasPid
  }

  lemma OneMore(e: Effect, rest: seq<Effect>)
    ensures AllOk([e] + rest) <==> e.ok && AllOk(rest)
    ensures Acts([e] + rest) <==> Acts([e]) && Acts(rest)
  {
    var all := [e] + rest;
    assert all[0] == e && all[1..] == rest;
    assert forall i :: 0 <= i < |rest| ==> rest[i] == all[i + 1];
  }

  lemma Lone(e: Effect)
    ensures AllOk([e]) <==> e.ok
    ensures Acts([e]) <==> !e.ReadState? && !e.DurablePark?
  {
    assert [e][0] == e;
  }

  /** A course that succeeds exactly when all it tried succeeded, and that only acts. */
  predicate Honest(c: Course) {
    (c.outcome.Some? <==> AllOk(c.effects)) && Acts(c.effects)
  }

  lemma FinishIsHonest(a: Answers, gate: bool, terminal: bool, outcome: Outcome)
    ensures Honest(FinishOf(a, gate, terminal, outcome))
  {
    Lone(Terminate(a.terminateOk));
    GatedIsHonest(a, gate, FinishOf(a, false, terminal, outcome));
  }

  lemma MarkedIsHonest(a: Answers, terminal: bool)
    ensures Honest(MarkedOf(a, terminal))
  {
    FinishIsHonest(a, false, terminal, ProcessSignaled);
    Lone(Mark(a.markOk));
    OneMore(Mark(true), FinishOf(a, false, terminal, ProcessSignaled).effects);
  }

  lemma SignalIsHonest(a: Answers, terminal: bool, outcome: Outcome)
    ensures Honest(SignalOf(a, terminal, outcome))
  {
    FinishIsHonest(a, false, terminal, outcome);
    MarkedIsHonest(a, terminal);
    Lone(Signal(true));
    Lone(Signal(false));
    OneMore(Signal(true), MarkedOf(a, terminal).effects);
  }

  lemma PidIsHonest(a: Answers, hasPid: bool, terminal: bool, outcome: Outcome)
    ensures Honest(PidOf(a, hasPid, terminal, outcome))
  {
    hide SignalOf, FinishOf;
    FinishIsHonest(a, false, terminal, outcome);
    FinishIsHonest(a, false, terminal, AlreadyFinished);
    SignalIsHonest(a, terminal, outcome);
    Lone(Match(true));
    Lone(Match(false));
    OneMore(Match(true), FinishOf(a, false, terminal, outcome).effects);
    OneMore(Match(true), FinishOf(a, false, terminal, AlreadyFinished).effects);
    OneMore(Match(true), SignalOf(a, terminal, outcome).effects);
  }

  lemma KillIsHonest(a: Answers, hasPid: bool, terminal: bool, outcome: Outcome)
    ensures var c := KillOf(a, hasPid, terminal, outcome);
            if a.kill.NotOwned? && hasPid then c.outcome.None? && Acts(c.effects) else Honest(c)
  {
    hide MarkedOf, FinishOf;
    FinishIsHonest(a, false, terminal, outcome);
    MarkedIsHonest(a, terminal);
    Lone(Kill(true));
    Lone(Kill(false));
    OneMore(Kill(true), FinishOf(a, false, terminal, outcome).effects);
    OneMore(Kill(true), MarkedOf(a, terminal).effects);
  }

  lemma GatedIsHonest(a: Answers, gate: bool, rest: Course)
    ensures Honest(rest) ==> Honest(Gated(a, gate, rest))
    ensures Acts(rest.effects) && rest.outcome.None? ==>
              Acts(Gated(a, gate, rest).effects) && Gated(a, gate, rest).outcome.None?
  {
    Lone(BeginStop(a.drainOk));
    OneMore(BeginStop(true), rest.effects);
  }

  lemma TargetIsHonest(p: Preflight, a: Answers, registry: bool, gate: bool, terminal: bool)
    ensures var c := TargetOf(p, a, registry, gate, terminal);
            if OwnerMissing(p, a, registry) then c.outcome.None? && Acts(c.effects) else Honest(c)
  {
    hide KillOf, PidOf, FinishOf, Gated;
    FinishIsHonest(a, gate, terminal, PausedOnly);
    FinishIsHonest(a, gate, terminal, AlreadyFinished);
    if p.RunningRun? && p.execution.Some? {
      var x := p.execution.value;
      var outcome := if x.status.ExecCancelling? then AlreadyStopping else PausedOnly;
      KillIsHonest(a, x.hasPid, terminal, outcome);
      PidIsHonest(a, x.hasPid, terminal, outcome);
      GatedIsHonest(a, gate, if registry then KillOf(a, x.hasPid, terminal, outcome) else PidOf(a, x.hasPid, terminal, outcome));
    }
  }

  /** A halt succeeds exactly when everything it tried succeeded and no live process was left unowned. */
  lemma HaltSucceedsIff(p: Preflight, a: Answers, registry: bool, terminal: bool)
    ensures var c := HaltOf(p, a, registry, terminal);
            && (c.outcome.Some? <==> AllOk(c.effects) && !OwnerMissing(p, a, registry))
            && Acts(c.effects)
  {
    hide TargetOf, Gated;
    TargetIsHonest(p, a, registry, registry, true);
    TargetIsHonest(p, a, registry, false, false);
    GatedIsHonest(a, registry, TargetOf(p, a, registry, false, false));
  }

  /** It says "signaled" exactly when a live agent was killed or signalled and marked. */
  lemma SignaledIff(p: Preflight, a: Answers, registry: bool, terminal: bool)
    requires HaltOf(p, a, registry, terminal).outcome.Some?
    ensures var c := HaltOf(p, a, registry, terminal);
            c.outcome.value.ProcessSignaled? <==> Mark(true) in c.effects
    ensures Mark(true) in HaltOf(p, a, registry, terminal).effects ==>
              p.RunningRun? && p.execution.Some? && !p.execution.value.status.ExecFinished?
              && (if registry then a.kill.Killed? else p.execution.value.hasPid && a.signal == Some(true))
  {
  }

  /** The latest run is running and its execution has not ended. */
  predicate LiveExecution(p: Preflight) {
    p.RunningRun? && p.execution.Some? && !p.execution.value.status.ExecFinished?
  }

  /** Without a registry the stored PID is looked up, when there is a way to. */
  predicate PidGone(p: Preflight, a: Answers, registry: bool) {
    && LiveExecution(p) && !registry && p.execution.value.hasPid
    && a.matcher.Some? && a.matcher.value.Matched? && !a.matcher.value.running
  }

  predicate PidConfirmed(p: Preflight, a: Answers, registry: bool) {
    && LiveExecution(p) && !registry && p.execution.value.hasPid
    && (a.matcher.None? || (a.matcher.value.Matched? && a.matcher.value.running && a.matcher.value.matches))
  }

  /** The agent was killed by its registry, or signalled under its confirmed PID. */
  predicate Reached(p: Preflight, a: Answers, registry: bool) {
    if registry then LiveExecution(p) && a.kill.Killed? else PidConfirmed(p, a, registry) && a.signal.Some?
  }

  /** Which answers let a halt succeed. */
  predicate AnswersSuffice(p: Preflight, a: Answers, registry: bool, terminal: bool) {
    && (registry ==> a.drainOk) && (terminal ==> a.terminateOk)
    && !OwnerMissing(p, a, registry)
    && (registry && LiveExecution(p) ==> !a.kill.KillFails?)
    && (!registry && LiveExecution(p) && p.execution.value.hasPid ==> a.matcher != Some(MatchFails))
    && (PidConfirmed(p, a, registry) ==> a.signal != Some(false))
    && (Reached(p, a, registry) ==> a.markOk)
  }

  /** What a halt reports, from the answers alone: whether it succeeds at all, and then which outcome. */
  lemma AnswersDecideTheOutcome(p: Preflight, a: Answers, registry: bool, terminal: bool)
    ensures var r := HaltOf(p, a, registry, terminal).outcome;
            && (r.Some? <==> AnswersSuffice(p, a, registry, terminal))
            && (r.Some? ==>
                  && (r.value == ProcessSignaled <==> Reached(p, a, registry))
                  && (r.value == AlreadyFinished <==>
                        p.NotRunning? || (p.RunningRun? && p.execution.Some? && p.execution.value.status.ExecFinished?) || PidGone(p, a, registry))
                  && (r.value == AlreadyStopping <==>
                        LiveExecution(p) && p.execution.value.status.ExecCancelling? && !Reached(p, a, registry) && !PidGone(p, a, registry))
                  && (r.value == PausedOnly <==>
                        p.NoRunStore? || p == RunningRun(None)
                        || (LiveExecution(p) && p.execution.value.status.ExecRunning? && !Reached(p, a, registry) && !PidGone(p, a, registry))))
  {
    hide Gated;
    GatePasses(a, registry, TargetOf(p, a, registry, false, false));
    GatePasses(a, registry, TargetOf(p, a, registry, false, true));
    GateMoves(p, a, registry);
    TargetOutcome(p, a, registry, terminal);
  }

  lemma GatePasses(a: Answers, gate: bool, rest: Course)
    ensures Gated(a, gate, rest).outcome == if gate && !a.drainOk then None else rest.outcome
  {
  }

  /** Closing the gate inside the halt rather than before it does not change the outcome. */
  lemma GateMoves(p: Preflight, a: Answers, registry: bool)
    ensures TargetOf(p, a, registry, registry, true).outcome == Gated(a, registry, TargetOf(p, a, registry, false, true)).outcome
  {
  }

  lemma TargetOutcome(p: Preflight, a: Answers, registry: bool, terminal: bool)
    ensures var r := TargetOf(p, a, registry, false, terminal).outcome;
            && (r.Some? && (registry ==> a.drainOk) <==> AnswersSuffice(p, a, registry, terminal))
            && (r.Some? ==>
                  r.value == if Reached(p, a, registry) then ProcessSignaled
                             else if p.NoRunStore? || p == RunningRun(None) then PausedOnly
                             else if !LiveExecution(p) || PidGone(p, a, registry) then AlreadyFinished
                             else if p.execution.value.status.ExecCancelling? then AlreadyStopping else PausedOnly)
  {
  }

  /**
   A halt that succeeds over a live execution asked the registry to kill it, or signalled it when there is none
   and its PID was confirmed.
   */
  lemma LiveExecutionIsStopped(p: Preflight, a: Answers, registry: bool, terminal: bool)
    requires p.RunningRun? && p.execution.Some? && !p.execution.value.status.ExecFinished?
    requires HaltOf(p, a, registry, terminal).outcome.Some?
    ensures var effects := HaltOf(p, a, registry, terminal).effects;
            && (registry ==> Kill(true) in effects && (a.kill.Killed? ==> Mark(true) in effects))
            && (!registry && p.execution.value.hasPid && a.signal.Some?
                && (a.matcher.None? || (a.matcher.value.Matched? && a.matcher.value.running && a.matcher.value.matches)) ==>
                  Signal(true) in effects && Mark(true) in effects)
  {
  }

  /** With a registry the gate is closed exactly once, before anything else. */
  lemma GateComesFirst(p: Preflight, a: Answers, terminal: bool)
    ensures var effects := HaltOf(p, a, true, terminal).effects;
            && effects != [] && effects[0].BeginStop? && (forall i :: 1 <= i < |effects| ==> !effects[i].BeginStop?)
  {
  }

  /** Only a close terminates, as its last effect, and it does so whenever it succeeds. */
  predicate EndsWell(c: Course, terminal: bool) {
    && (forall i :: 0 <= i < |c.effects| && c.effects[i].Terminate? ==> terminal && i == |c.effects| - 1)
    && (c.outcome.Some? && terminal ==> c.effects != [] && c.effects[|c.effects| - 1] == Terminate(true))
  }

  lemma TerminateIsLast(p: Preflight, a: Answers, registry: bool, terminal: bool)
    ensures EndsWell(HaltOf(p, a, registry, terminal), terminal)
  {
    hide KillOf, PidOf, FinishOf, Gated;
    var rest := TargetOf(p, a, registry, false, terminal);
    FinishEndsWell(a, false, terminal, PausedOnly);
    FinishEndsWell(a, false, terminal, AlreadyFinished);
    FinishEndsWell(a, registry, terminal, PausedOnly);
    FinishEndsWell(a, registry, terminal, AlreadyFinished);
    if p.RunningRun? && p.execution.Some? {
      var x := p.execution.value;
      var outcome := if x.status.ExecCancelling? then AlreadyStopping else PausedOnly;
      KillEndsWell(a, x.hasPid, terminal, outcome);
      PidEndsWell(a, x.hasPid, terminal, outcome);
      var course := if registry then KillOf(a, x.hasPid, terminal, outcome) else PidOf(a, x.hasPid, terminal, outcome);
      GatedEndsWell(a, registry, course, terminal);
      GatedEndsWell(a, false, course, terminal);
    }
    if !terminal {
      GatedEndsWell(a, registry, rest, terminal);
    }
  }

  lemma GatedEndsWell(a: Answers, gate: bool, rest: Course, terminal: bool)
    requires EndsWell(rest, terminal)
    ensures EndsWell(Gated(a, gate, rest), terminal)
  {
  }

  lemma FinishEndsWell(a: Answers, gate: bool, terminal: bool, outcome: Outcome)
    ensures EndsWell(FinishOf(a, gate, terminal, outcome), terminal)
  {
  }

  lemma KillEndsWell(a: Answers, hasPid: bool, terminal: bool, outcome: Outcome)
    ensures EndsWell(KillOf(a, hasPid, terminal, outcome), terminal)
  {
  }

  lemma OneMoreEndsWell(e: Effect, rest: Course, terminal: bool)
    requires !e.Terminate? && EndsWell(rest, terminal)
    ensures EndsWell(After([e], rest), terminal)
  {
    assert forall i :: 1 <= i <= |rest.effects| ==> ([e] + rest.effects)[i] == rest.effects[i - 1];
  }

  lemma SignalEndsWell(a: Answers, terminal: bool, outcome: Outcome)
    ensures EndsWell(SignalOf(a, terminal, outcome), terminal)
  {
  }

  lemma PidEndsWell(a: Answers, hasPid: bool, terminal: bool, outcome: Outcome)
    ensures EndsWell(PidOf(a, hasPid, terminal, outcome), terminal)
  {
    hide SignalOf, FinishOf;
    FinishEndsWell(a, false, terminal, outcome);
    FinishEndsWell(a, false, terminal, AlreadyFinished);
    SignalEndsWell(a, terminal, outcome);
    OneMoreEndsWell(Match(true), FinishOf(a, false, terminal, outcome), terminal);
    OneMoreEndsWell(Match(true), FinishOf(a, false, terminal, AlreadyFinished), terminal);
    OneMoreEndsWell(Match(true), SignalOf(a, terminal, outcome), terminal);
  }

  lemma HaltActs(p: Preflight, a: Answers, registry: bool, terminal: bool, first: seq<Effect>, i: nat)
    requires var all := After(first, HaltOf(p, a, registry, terminal)).effects; |first| <= i < |all|
    ensures var e := After(first, HaltOf(p, a, registry, terminal)).effects[i]; !e.ReadState? && !e.DurablePark?
  {
    HaltSucceedsIff(p, a, registry, terminal);
    var rest := HaltOf(p, a, registry, terminal).effects;
    assert (first + rest)[i] == rest[i - |first|];
  }

  /** Nothing irreversible happens before the loop is durably parked, and no read after it. */
  lemma NothingIrreversibleBeforePark(a: Answers, registry: bool, takeover: bool, i: nat)
    requires var effects := (if takeover then TakeoverOf(a, registry) else StopOf(a, registry)).effects;
             i < |effects| && Irreversible(effects[i])
    ensures var effects := (if takeover then TakeoverOf(a, registry) else StopOf(a, registry)).effects;
            && (exists j :: 0 <= j < i && effects[j] == DurablePark(if takeover then HumanTakeover else Paused, true))
            && (forall k :: i < k < |effects| ==> !effects[k].ReadState?)
  {
    hide HaltOf;
    var effects := (if takeover then TakeoverOf(a, registry) else StopOf(a, registry)).effects;
    var park := if takeover then 2 else 1;
    var first := effects[..park + 1];
    assert effects[park] == DurablePark(if takeover then HumanTakeover else Paused, true);
    forall k | park < k < |effects|
      ensures !effects[k].ReadState?
    {
      HaltActs(a.preflight.value, a, registry, false, first, k);
    }
  }

  /** A close does nothing irreversible before its preflight reads have all succeeded. */
  lemma CloseReadsFirst(a: Answers, registry: bool, i: nat)
    requires i < |CloseOf(a, registry).effects| && Irreversible(CloseOf(a, registry).effects[i])
    ensures var effects := CloseOf(a, registry).effects;
            && effects[0] == ReadState(true)
            && (forall k :: 1 <= k < |effects| ==> !effects[k].ReadState? && !effects[k].DurablePark?)
  {
    hide HaltOf;
    var effects := CloseOf(a, registry).effects;
    forall k | 1 <= k < |effects|
      ensures !effects[k].ReadState? && !effects[k].DurablePark?
    {
      HaltActs(a.preflight.value, a, registry, true, [ReadState(true)], k);
    }
  }

  // ---------------------------------------------------------------------------
  // The operations
  // ---------------------------------------------------------------------------

  datatype TxResult = TxFails | TxNoWork | TxPublishes

  /** How the gate entry ends: an abandoned hold is dropped again. */
  function GateAfter(e: Entry, held: bool, keep: bool): Entry {
    if !held then e else if keep then Hold(e) else Drop(Hold(e), HoldGeneration(e))
  }

  /** The gate after a reactivation: cleared, and closed again only if that is called for and it was closed. */
  function ReactivatedGate(e: Entry, restores: bool): Entry {
    if restores && Closed(e) then Hold(Clear(e)) else Clear(e)
  }

  /** Who restores: a retry that published nothing, but a start only when its transaction failed. */
  predicate RetryRestores(tx: TxResult) {
    !tx.TxPublishes?
  }

  predicate StartRestores(tx: TxResult) {
    tx.TxFails?
  }

  /**
   A retry without new work always leaves the gate as found; a start does so exactly when it failed or the gate
   was open.
   */
  lemma UnproductiveReactivationKeepsGateIff(e: Entry, tx: TxResult)
    requires !tx.TxPublishes?
    ensures Closed(ReactivatedGate(e, RetryRestores(tx))) <==> Closed(e)
    ensures (Closed(ReactivatedGate(e, StartRestores(tx))) <==> Closed(e)) <==> (tx.TxFails? || !Closed(e))
  {
  }

  class LoopController {
    const loop: LoopId
    const registry: ActiveExecutionRegistry?
    var status: LoopStatus
    var trace: seq<Effect>

    ghost predicate Valid()
      reads this, registry
    {
      loop != "" && (registry != null ==> registry.Valid())
    }

    ghost function GateEntry(): Entry
      reads this, registry
    {
      if registry == null then Entry(None, 0) else registry.EntryOf(loop)
    }

    method Note(e: Effect)
      modifies this`trace
      ensures trace == old(trace) + [e]
    {
      trace := trace + [e];
    }

    /** beginLoopStop: at most once, and only with a registry. */
    method BeginStopOnce(a: Answers, release: StopRelease?) returns (held: StopRelease?, ok: bool)
      requires Valid()
      modifies this`trace, registry
      ensures Valid()
      ensures release != null || registry == null ==>
                held == release && ok && trace == old(trace) && GateEntry() == old(GateEntry())
      ensures release == null && registry != null ==>
                && held != null && fresh(held) && held.registry == registry && held.loop == loop && !held.done
                && held.generation == HoldGeneration(old(GateEntry())) && GateEntry() == Hold(old(GateEntry()))
                && ok == a.drainOk && trace == old(trace) + [BeginStop(ok)]
    {
      if release != null || registry == null {
        return release, true;
      }
      held := registry.BeginLoopStop(loop);
      ok := a.drainOk;
      Note(BeginStop(ok));
    }

    /** finish: close the gate if that is still to do, then terminate when closing. */
    method Finish(a: Answers, terminal: bool, release: StopRelease?, outcome: Outcome)
      returns (r: Option<Outcome>, held: StopRelease?)
      requires Valid()
      modifies this`trace, this`status, registry
      ensures Valid() && HeldAfter(old(GateEntry()), GateEntry(), release, held)
      ensures release != null ==> held == release
      ensures release == null && registry != null ==> held != null && fresh(held)
      ensures var c := FinishOf(a, release == null && registry != null, terminal, outcome);
              r == c.outcome && trace == old(trace) + c.effects
      ensures status == if terminal && r.Some? then Terminated else old(status)
    {
      var ok;
      held, ok := BeginStopOnce(a, release);
      if !ok {
        return None, held;
      }
      if !terminal {
        assert trace == trace + [];
        return Some(outcome), held;
      }
      Note(Terminate(a.terminateOk));
      if !a.terminateOk {
        return None, held;
      }
      status := Terminated;
      r := Some(outcome);
    }

    /** The gate entry changes just when a hold was taken, and that hold is the one returned. */
    ghost predicate HeldAfter(before: Entry, after: Entry, release: StopRelease?, held: StopRelease?)
      reads held
    {
      if release != null || registry == null then held == release && after == before
      else held != null && after == Hold(before) && held.registry == registry && held.loop == loop && !held.done
           && held.generation == HoldGeneration(before)
    }

    method MarkAndFinish(a: Answers, terminal: bool) returns (r: Option<Outcome>)
      requires Valid()
      modifies this`trace, this`status
      ensures r == MarkedOf(a, terminal).outcome && trace == old(trace) + MarkedOf(a, terminal).effects
      ensures status == if terminal && r.Some? then Terminated else old(status)
    {
      Note(Mark(a.markOk));
      if !a.markOk {
        return None;
      }
      r := FinishHeld(a, terminal, ProcessSignaled);
    }

    /** finish with the gate already taken, or without a registry. */
    method FinishHeld(a: Answers, terminal: bool, outcome: Outcome) returns (r: Option<Outcome>)
      modifies this`trace, this`status
      ensures var c := FinishOf(a, false, terminal, outcome); r == c.outcome && trace == old(trace) + c.effects
      ensures status == if terminal && r.Some? then Terminated else old(status)
    {
      if !terminal {
        assert trace == trace + [];
        return Some(outcome);
      }
      Note(Terminate(a.terminateOk));
      if !a.terminateOk {
        return None;
      }
      status := Terminated;
      r := Some(outcome);
    }

    method KillOwned(a: Answers, hasPid: bool, terminal: bool, outcome: Outcome) returns (r: Option<Outcome>)
      requires Valid()
      modifies this`trace, this`status
      ensures var c := KillOf(a, hasPid, terminal, outcome); r == c.outcome && trace == old(trace) + c.effects
      ensures status == if terminal && r.Some? then Terminated else old(status)
    {
      Note(Kill(!a.kill.KillFails?));
      match a.kill
      case KillFails =>
        return None;
      case Killed =>
        r := MarkAndFinish(a, terminal);
      case NotOwned =>
        if hasPid {
          return None;
        }
        r := FinishHeld(a, terminal, outcome);
    }

    method SignalPid(a: Answers, terminal: bool, outcome: Outcome) returns (r: Option<Outcome>)
      requires Valid()
      modifies this`trace, this`status
      ensures var c := SignalOf(a, terminal, outcome); r == c.outcome && trace == old(trace) + c.effects
      ensures status == if terminal && r.Some? then Terminated else old(status)
    {
      if a.signal.None? {
        r := FinishHeld(a, terminal, outcome);
        return;
      }
      Note(Signal(a.signal.value));
      if !a.signal.value {
        return None;
      }
      r := MarkAndFinish(a, terminal);
    }

    method KillByPid(a: Answers, hasPid: bool, terminal: bool, outcome: Outcome) returns (r: Option<Outcome>)
      requires Valid()
      modifies this`trace, this`status
      ensures var c := PidOf(a, hasPid, terminal, outcome); r == c.outcome && trace == old(trace) + c.effects
      ensures status == if terminal && r.Some? then Terminated else old(status)
    {
      hide SignalOf, FinishOf;
      if !hasPid {
        r := FinishHeld(a, terminal, outcome);
        return;
      }
      if a.matcher.Some? {
        Note(Match(!a.matcher.value.MatchFails?));
        if a.matcher.value.MatchFails? {
          return None;
        }
        if !a.matcher.value.running || !a.matcher.value.matches {
          r := FinishHeld(a, terminal, if !a.matcher.value.running then AlreadyFinished else outcome);
          return;
        }
      }
      r := SignalPid(a, terminal, outcome);
    }

    /** The part of haltLoopWithPreflight after its durable pause, up to its deferred release. */
    method HaltBody(p: Preflight, a: Answers, terminal: bool) returns (r: Option<Outcome>, held: StopRelease?)
      requires Valid()
      modifies this`trace, this`status, registry
      ensures Valid() && HeldAfter(old(GateEntry()), GateEntry(), null, held) && (held != null ==> fresh(held))
      ensures var c := HaltOf(p, a, registry != null, terminal); r == c.outcome && trace == old(trace) + c.effects
      ensures status == if terminal && r.Some? then Terminated else old(status)
    {
      hide KillOf, PidOf, FinishOf;
      held := null;
      var ok := true;
      if !terminal {
        held, ok := BeginStopOnce(a, held);
        if !ok {
          return None, held;
        }
      }
      if !p.RunningRun? || p.execution.None? || p.execution.value.status.ExecFinished? {
        var outcome := if p.NotRunning? || (p.RunningRun? && p.execution.Some?) then AlreadyFinished else PausedOnly;
        r, held := Finish(a, terminal, held, outcome);
        return;
      }
      var x := p.execution.value;
      var outcome := if x.status.ExecCancelling? then AlreadyStopping else PausedOnly;
      held, ok := BeginStopOnce(a, held);
      if !ok {
        return None, held;
      }
      if registry != null {
        r := KillOwned(a, x.hasPid, terminal, outcome);
      } else {
        r := KillByPid(a, x.hasPid, terminal, outcome);
      }
    }

    /**
     haltLoopWithPreflight once the loop is parked (or, closing, not parked at all): a stop
     keeps its hold whatever happens next, a close keeps it just when it succeeds.
     */
    method Halt(p: Preflight, a: Answers, terminal: bool) returns (r: Option<Outcome>)
      requires Valid()
      modifies this`trace, this`status, registry
      ensures Valid()
      ensures var c := HaltOf(p, a, registry != null, terminal); r == c.outcome && trace == old(trace) + c.effects
      ensures status == if terminal && r.Some? then Terminated else old(status)
      ensures GateEntry() == GateAfter(old(GateEntry()), registry != null, !terminal || r.Some?)
    {
      var held;
      r, held := HaltBody(p, a, terminal);
      if held != null && terminal && r.None? {
        held.Run();
      }
    }

    method Stop(a: Answers) returns (r: Option<Outcome>)
      requires Valid()
      modifies this`trace, this`status, registry
      ensures Valid()
      ensures r == StopOf(a, registry != null).outcome && trace == old(trace) + StopOf(a, registry != null).effects
      ensures var parked := a.preflight.Some? && a.parkOk;
              && status == (if parked then Paused else old(status))
              && GateEntry() == GateAfter(old(GateEntry()), registry != null && parked, true)
    {
      hide HaltOf;
      Note(ReadState(a.preflight.Some?));
      if a.preflight.None? {
        return None;
      }
      Note(DurablePark(Paused, a.parkOk));
      if !a.parkOk {
        return None;
      }
      status := Paused;
      r := Halt(a.preflight.value, a, false);
    }

    method Close(a: Answers) returns (r: Option<Outcome>)
      requires Valid()
      modifies this`trace, this`status, registry
      ensures Valid()
      ensures r == CloseOf(a, registry != null).outcome && trace == old(trace) + CloseOf(a, registry != null).effects
      ensures status == (if r.Some? then Terminated else old(status))
      ensures if r.Some? then GateEntry() == GateAfter(old(GateEntry()), registry != null, true)
              else GateEntry().live == old(GateEntry()).live
    {
      hide HaltOf;
      Note(ReadState(a.preflight.Some?));
      if a.preflight.None? {
        return None;
      }
      HoldThenDrop(GateEntry());
      r := Halt(a.preflight.value, a, true);
    }

    /** The human's hold is durable before the halt; the halt's errors leave it in place. */
    method Takeover(a: Answers) returns (r: Option<Outcome>)
      requires Valid()
      modifies this`trace, this`status, registry
      ensures Valid()
      ensures r == TakeoverOf(a, registry != null).outcome && trace == old(trace) + TakeoverOf(a, registry != null).effects
      ensures var parked := a.takeoverReadsOk && a.preflight.Some? && a.parkOk;
              && status == (if parked then HumanTakeover else old(status))
              && GateEntry() == GateAfter(old(GateEntry()), registry != null && parked, true)
    {
      hide HaltOf;
      Note(ReadState(a.takeoverReadsOk));
      if !a.takeoverReadsOk {
        return None;
      }
      Note(ReadState(a.preflight.Some?));
      if a.preflight.None? {
        return None;
      }
      Note(DurablePark(HumanTakeover, a.parkOk));
      if !a.parkOk {
        return None;
      }
      status := HumanTakeover;
      r := Halt(a.preflight.value, a, false);
    }

    /** restoreStopGate. */
    method RestoreStopGate(wasActive: bool)
      requires Valid()
      modifies registry
      ensures Valid() && GateEntry() == if wasActive && registry != null then Hold(old(GateEntry())) else old(GateEntry())
    {
      if wasActive && registry != null {
        registry.RestoreLoopStop(loop);
      }
    }

    /**
     retryLoop from its checks on.  A retry that fails or publishes nothing leaves the gate
     as closed or open as it was; one that publishes work leaves it open.
     */
    method Retry(checksOk: bool, tx: TxResult, restoreDrainOk: bool) returns (ok: bool)
      requires Valid()
      modifies this`status, registry
      ensures Valid()
      ensures !checksOk ==> !ok && GateEntry() == old(GateEntry())
      ensures checksOk && registry != null ==> GateEntry() == ReactivatedGate(old(GateEntry()), RetryRestores(tx))
      ensures checksOk ==> ok == (!tx.TxFails? && (tx.TxPublishes? || restoreDrainOk || !Closed(old(GateEntry()))))
      ensures var published := checksOk && tx.TxPublishes?;
              && status == (if published then Queued else old(status))
              && (published ==> !Closed(GateEntry()))
              && (!published ==> (Closed(GateEntry()) <==> Closed(old(GateEntry()))))
    {
      if !checksOk {
        return false;
      }
      var gateWasActive := false;
      if registry != null {
        gateWasActive := registry.ClearLoopStop(loop);
      }
      if tx.TxFails? {
        RestoreStopGate(gateWasActive);
        return false;
      }
      if tx.TxNoWork? {
        RestoreStopGate(gateWasActive);
        return restoreDrainOk || !gateWasActive;
      }
      status := Queued;
      ok := true;
    }

    /** mutateLoopStatus to running: only a failed transaction restores the gate. */
    method Start(checksOk: bool, tx: TxResult) returns (ok: bool)
      requires Valid()
      modifies this`status, registry
      ensures Valid()
      ensures ok == (checksOk && !tx.TxFails?)
      ensures !checksOk ==> GateEntry() == old(GateEntry())
      ensures checksOk && registry != null ==> GateEntry() == ReactivatedGate(old(GateEntry()), StartRestores(tx))
      ensures status == (if ok then Running else old(status))
      ensures ok ==> !Closed(GateEntry())
      ensures !ok ==> (Closed(GateEntry()) <==> Closed(old(GateEntry())))
    {
      if !checksOk {
        return false;
      }
      var gateWasActive := false;
      if registry != null {
        gateWasActive := registry.ClearLoopStop(loop);
      }
      if tx.TxFails? {
        RestoreStopGate(gateWasActive);
        return false;
      }
      status := Running;
      ok := true;
    }
  }
}
