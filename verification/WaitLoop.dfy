/**
 The wait loop of one running agent (run in internal/agent/executor.go): a select over
 process exit, the max-runtime timer, the idle ticker, kill requests, cancellation and
 the grace timer, followed by the final group kill and the final status.

 An event is one choice of the select together with what its re-checks find.  A choice
 whose channel is nil is never ready and changes nothing.
 */
module WaitLoop {
  /** What sending SIGTERM to the group reports. */
  datatype TermOutcome = NoProcess | Delivered | AlreadyGone | Refused

  datatype Config = Config(hasDeadline: bool, hasIdle: bool, term: TermOutcome)

  /** `kill` and `cancelled` are the two re-checks between the two looks at process exit. */
  datatype Event =
    | Exit
    | Deadline(exitFirst: bool, kill: bool, cancelled: bool, exitLast: bool)
    | IdleTick(exitFirst: bool, idleFirst: bool, kill: bool, cancelled: bool, exitLast: bool, idleLast: bool)
    | Kill
    | Cancelled
    | Grace

  datatype Effect = SendTerm | ArmGrace | GroupKill

  datatype Final = Completed | Failed | TimedOut | Killed

  datatype State = State(
    waiting: bool,
    timedOut: bool,
    killed: bool,
    deadlineArmed: bool,
    graceArmed: bool,
    termDelivered: bool,
    terminated: bool,
    effects: seq<Effect>)

  function Start(c: Config): State {
    State(true, false, false, c.hasDeadline, false, false, false, [])
  }

  /** terminateSignal, guarded by a sync.Once. */
  function Terminate(c: Config, s: State): (r: State)
    ensures r.waiting == s.waiting && r.timedOut == s.timedOut && r.killed == s.killed && r.deadlineArmed == s.deadlineArmed
  {
    if s.terminated then s
    else
      var s1 := s.(terminated := true);
      match c.term
      case NoProcess => s1
      case AlreadyGone => s1.(effects := s.effects + [SendTerm])
      case Refused => s1.(effects := s.effects + [SendTerm, GroupKill])
      case Delivered => s1.(effects := s.effects + [SendTerm, ArmGrace], termDelivered := true, graceArmed := true)
  }

  function Step(c: Config, s: State, e: Event): State {
    if !s.waiting then s
    else
      match e
      case Exit => s.(waiting := false)
      case Deadline(exitFirst, kill, cancelled, exitLast) =>
        if !s.deadlineArmed then s
        else
          var s1 := s.(deadlineArmed := false);
          if s.timedOut || s.killed then s1
          else if exitFirst then s1.(waiting := false)
          else if kill || cancelled then Terminate(c, s1.(killed := true))
          else if exitLast then s1.(waiting := false)
          else Terminate(c, s1.(timedOut := true))
      case IdleTick(exitFirst, idleFirst, kill, cancelled, exitLast, idleLast) =>
        if !c.hasIdle || s.timedOut || s.killed then s
        else if exitFirst then s.(waiting := false)
        else if !idleFirst then s
        else if kill || cancelled then Terminate(c, s.(killed := true))
        else if exitLast then s.(waiting := false)
        else if !idleLast then s
        else Terminate(c, s.(timedOut := true))
      case Kill => Terminate(c, s.(killed := true))
      case Cancelled => Terminate(c, s.(killed := true))
      case Grace =>
        if !s.graceArmed then s else s.(graceArmed := false, effects := s.effects + [GroupKill])
  }

  function Run(c: Config, es: seq<Event>): State {
    if es == [] then Start(c) else Step(c, Run(c, es[..|es| - 1]), es[|es| - 1])
  }

  /** The effects after the loop: the last group kill. */
  function AllEffects(s: State): seq<Effect> {
    if s.termDelivered && (s.killed || s.timedOut) then s.effects + [GroupKill] else s.effects
  }

  function FinalStatus(s: State, exitedZero: bool): Final {
    if s.timedOut then TimedOut
    else if s.killed then Killed
    else if exitedZero then Completed
    else Failed
  }

  /** The loop itself, over the choices the select makes until the process exits. */
  class Runner {
    const config: Config
    var timedOut: bool
    var killed: bool
    var deadlineArmed: bool
    var graceArmed: bool
    var termDelivered: bool
    var terminated: bool
    var effects: seq<Effect>

    ghost function At(waiting: bool): State
      reads this
    {
      State(waiting, timedOut, killed, deadlineArmed, graceArmed, termDelivered, terminated, effects)
    }

    constructor (config: Config)
      ensures this.config == config && At(true) == Start(config)
    {
      this.config := config;
      timedOut, killed := false, false;
      deadlineArmed, graceArmed := config.hasDeadline, false;
      termDelivered, terminated := false, false;
      effects := [];
    }

    method TerminateSignal()
      modifies this
      ensures At(true) == Terminate(config, old(At(true)))
    {
      if terminated {
        return;
      }
      terminated := true;
      if config.term == NoProcess {
        return;
      }
      effects := effects + [SendTerm];
      if config.term != Delivered {
        if config.term == Refused {
          effects := effects + [GroupKill];
        }
        return;
      }
      termDelivered := true;
      graceArmed := true;
      effects := effects + [ArmGrace];
    }

    /** The max-runtime case of the select. */
    method OnDeadline(e: Event) returns (waiting: bool)
      requires e.Deadline?
      modifies this
      ensures At(waiting) == Step(config, old(At(true)), e)
    {
      waiting := true;
      if !deadlineArmed {
        return;
      }
      deadlineArmed := false;
      if timedOut || killed {
        return;
      }
      if e.exitFirst {
        return false;
      }
      if e.kill {
        killed := true;
        TerminateSignal();
        return;
      }
      if e.cancelled {
        killed := true;
        TerminateSignal();
        return;
      }
      if e.exitLast {
        return false;
      }
      timedOut := true;
      TerminateSignal();
    }

    /** The idle-ticker case of the select. */
    method OnIdleTick(e: Event) returns (waiting: bool)
      requires e.IdleTick?
      modifies this
      ensures At(waiting) == Step(config, old(At(true)), e)
    {
      waiting := true;
      if !config.hasIdle || timedOut || killed {
        return;
      }
      if e.exitFirst {
        return false;
      }
      if !e.idleFirst {
        return;
      }
      if e.kill {
        killed := true;
        TerminateSignal();
        return;
      }
      if e.cancelled {
        killed := true;
        TerminateSignal();
        return;
      }
      if e.exitLast {
        return false;
      }
      if !e.idleLast {
        return;
      }
      timedOut := true;
      TerminateSignal();
    }

    method Select(e: Event) returns (waiting: bool)
      modifies this
      ensures At(waiting) == Step(config, old(At(true)), e)
    {
      waiting := true;
      match e
      case Exit => waiting := false;
      case Deadline(_, _, _, _) => waiting := OnDeadline(e);
      case IdleTick(_, _, _, _, _, _) => waiting := OnIdleTick(e);
      case Kill =>
        killed := true;
        TerminateSignal();
      case Cancelled =>
        killed := true;
        TerminateSignal();
      case Grace =>
        if graceArmed {
          graceArmed := false;
          effects := effects + [GroupKill];
        }
    }

    method Wait(events: seq<Event>, exitedZero: bool) returns (finished: bool, status: Final)
      requires At(true) == Start(config)
      modifies this
      ensures var s := Run(config, events);
              && finished == !s.waiting
              && (finished ==> effects == AllEffects(s) && status == FinalStatus(s, exitedZero))
      ensures finished <==> SomeExitEnds(config, events)
      ensures finished ==>
                && (status == TimedOut <==> SomeTimerDecides(config, events))
                && (status == Killed <==> !SomeTimerDecides(config, events) && SomeKillBeforeExit(config, events))
                && (status in {Completed, Failed} ==> (status == Completed <==> exitedZero))
    {
      var waiting, i := true, 0;
      while waiting && i < |events|
        invariant 0 <= i <= |events|
        invariant At(waiting) == Run(config, events[..i])
      {
        assert events[..i + 1][..i] == events[..i];
        waiting := Select(events[i]);
        i := i + 1;
      }
      ExitIsFinal(config, events, i);
      assert events[..|events|] == events;
      OutcomeFollowsTheChoices(config, events, exitedZero);
      finished := !waiting;
      if finished && termDelivered && (killed || timedOut) {
        effects := effects + [GroupKill];
      }
      status := if timedOut then TimedOut else if killed then Killed else if exitedZero then Completed else Failed;
    }
  }

  /** Nothing after the exit counts. */
  lemma {:induction false} ExitIsFinal(c: Config, es: seq<Event>, i: nat)
    requires i <= |es|
    ensures !Run(c, es[..i]).waiting ==> Run(c, es) == Run(c, es[..i])
    decreases |es|
  {
    if i == |es| {
      assert es[..i] == es;
    } else {
      var shorter := es[..|es| - 1];
      ExitIsFinal(c, shorter, i);
      assert shorter[..i] == es[..i];
    }
  }

  // ---------------------------------------------------------------------------
  // What decides a timeout, said about the events alone
  // ---------------------------------------------------------------------------

  /** The timer found nothing at any of its re-checks. */
  predicate CleanTimer(e: Event) {
    match e
    case Deadline(exitFirst, kill, cancelled, exitLast) => !exitFirst && !kill && !cancelled && !exitLast
    case IdleTick(exitFirst, idleFirst, kill, cancelled, exitLast, idleLast) =>
      !exitFirst && idleFirst && !kill && !cancelled && !exitLast && idleLast
    case _ => false
  }

  predicate KillSeen(e: Event) {
    match e
    case Kill => true
    case Cancelled => true
    case Deadline(exitFirst, kill, cancelled, _) => !exitFirst && (kill || cancelled)
    case IdleTick(exitFirst, idleFirst, kill, cancelled, _, _) => !exitFirst && idleFirst && (kill || cancelled)
    case _ => false
  }

  predicate ExitSeen(e: Event) {
    match e
    case Exit => true
    case Deadline(exitFirst, kill, cancelled, exitLast) => exitFirst || (!kill && !cancelled && exitLast)
    case IdleTick(exitFirst, idleFirst, kill, cancelled, exitLast, _) =>
      exitFirst || (idleFirst && !kill && !cancelled && exitLast)
    case _ => false
  }

  /** The i-th choice could be made at all: its timer exists, and the one-shot deadline has not fired before. */
  predicate Ready(c: Config, es: seq<Event>, i: nat)
    requires i < |es|
  {
    && (es[i].Deadline? ==> c.hasDeadline && forall j :: 0 <= j < i ==> !es[j].Deadline?)
    && (es[i].IdleTick? ==> c.hasIdle)
  }

  /** Choice i is a clean timer, and no choice before it saw an exit, a kill or a cancellation. */
  predicate TimerDecides(c: Config, es: seq<Event>, i: nat)
    requires i < |es|
  {
    && Ready(c, es, i) && CleanTimer(es[i])
    && forall j :: 0 <= j < i && Ready(c, es, j) ==> !KillSeen(es[j]) && !ExitSeen(es[j])
  }

  predicate Quiet(c: Config, es: seq<Event>) {
    forall j :: 0 <= j < |es| && Ready(c, es, j) ==> !KillSeen(es[j]) && !ExitSeen(es[j]) && !CleanTimer(es[j])
  }

  lemma ReadyOfPrefix(c: Config, es: seq<Event>, n: nat, i: nat)
    requires i < n <= |es|
    ensures Ready(c, es[..n], i) == Ready(c, es, i)
  {
  }

  /** One choice made while nothing is decided yet. */
  lemma UndecidedStep(c: Config, s: State, e: Event)
    requires s.waiting && !s.timedOut && !s.killed
    ensures var ready := (e.Deadline? ==> s.deadlineArmed) && (e.IdleTick? ==> c.hasIdle);
            var s' := Step(c, s, e);
            && s'.waiting == !(ready && ExitSeen(e))
            && s'.killed == (ready && KillSeen(e))
            && s'.timedOut == (ready && CleanTimer(e))
            && s'.deadlineArmed == (s.deadlineArmed && !e.Deadline?)
  {
    match e
    case Deadline(_, _, _, _) =>
    case IdleTick(_, _, _, _, _, _) =>
    case _ =>
  }

  predicate Undecided(s: State) {
    s.waiting && !s.timedOut && !s.killed
  }

  predicate NoDeadline(es: seq<Event>) {
    forall j :: 0 <= j < |es| ==> !es[j].Deadline?
  }

  lemma QuietPrefix(c: Config, es: seq<Event>)
    requires es != []
    ensures var n := |es| - 1;
            Quiet(c, es) <==> Quiet(c, es[..n]) && (Ready(c, es, n) ==> !KillSeen(es[n]) && !ExitSeen(es[n]) && !CleanTimer(es[n]))
  {
    var n := |es| - 1;
    forall j | 0 <= j < n
      ensures Ready(c, es[..n], j) == Ready(c, es, j)
    {
      ReadyOfPrefix(c, es, n, j);
    }
    if Quiet(c, es[..n]) && (Ready(c, es, n) ==> !KillSeen(es[n]) && !ExitSeen(es[n]) && !CleanTimer(es[n])) {
      forall j | 0 <= j < |es| && Ready(c, es, j)
        ensures !KillSeen(es[j]) && !ExitSeen(es[j]) && !CleanTimer(es[j])
      {
        assert j < n ==> Ready(c, es[..n], j) && es[..n][j] == es[j];
      }
    }
    if Quiet(c, es) {
      forall j | 0 <= j < n && Ready(c, es[..n], j)
        ensures !KillSeen(es[..n][j]) && !ExitSeen(es[..n][j]) && !CleanTimer(es[..n][j])
      {
        assert Ready(c, es, j);
      }
    }
  }

  /** While nothing decisive happened, the only change is that the deadline timer may have been used up. */
  lemma {:induction false} QuietRun(c: Config, es: seq<Event>)
    ensures Quiet(c, es) <==> Undecided(Run(c, es))
    ensures Quiet(c, es) ==> Run(c, es).deadlineArmed == (c.hasDeadline && NoDeadline(es))
  {
    if es != [] {
      var n := |es| - 1;
      QuietRun(c, es[..n]);
      QuietPrefix(c, es);
      var s := Run(c, es[..n]);
      Flags(c, s, es[n]);
      if Undecided(s) {
        UndecidedStep(c, s, es[n]);
        assert NoDeadline(es) <==> NoDeadline(es[..n]) && !es[n].Deadline?;
      }
    }
  }

  /** One step never withdraws an exit, a kill or a timeout. */
  lemma Flags(c: Config, s: State, e: Event)
    ensures var s' := Step(c, s, e);
            && (!s.waiting ==> !s'.waiting) && (s.timedOut ==> s'.timedOut) && (s.killed ==> s'.killed)
            && (s.killed || s.timedOut || !s.waiting ==> s'.timedOut == s.timedOut)
  {
  }

  // ---------------------------------------------------------------------------
  // Main results
  // ---------------------------------------------------------------------------

  /**
   For every order of events, the loop is timed out exactly when a timer decided with no
   exit, kill or cancellation seen by then; kills that come later do not matter.
   */
  lemma {:induction false} TimeoutIffTimerDecides(c: Config, es: seq<Event>)
    ensures Run(c, es).timedOut <==> exists i: nat :: i < |es| && TimerDecides(c, es, i)
  {
    if es != [] {
      var n := |es| - 1;
      var before := es[..n];
      TimeoutIffTimerDecides(c, before);
      forall j: nat | j < n
        ensures TimerDecides(c, before, j) == TimerDecides(c, es, j)
      {
        DecidesOfPrefix(c, es, n, j);
      }
      QuietRun(c, before);
      var s := Run(c, before);
      Flags(c, s, es[n]);
      if s.timedOut {
        var i: nat :| i < |before| && TimerDecides(c, before, i);
        assert TimerDecides(c, es, i);
      } else if Undecided(s) {
        UndecidedStep(c, s, es[n]);
        LastDecides(c, es);
      } else {
        if TimerDecides(c, es, n) {
          NotQuietNotLast(c, es);
        }
      }
    }
  }

  lemma DecidesOfPrefix(c: Config, es: seq<Event>, n: nat, j: nat)
    requires j < n <= |es|
    ensures TimerDecides(c, es[..n], j) == TimerDecides(c, es, j)
  {
    forall k | 0 <= k <= j
      ensures Ready(c, es[..n], k) == Ready(c, es, k)
    {
      ReadyOfPrefix(c, es, n, k);
    }
  }

  lemma LastDecides(c: Config, es: seq<Event>)
    requires es != [] && Quiet(c, es[..|es| - 1])
    ensures TimerDecides(c, es, |es| - 1) <==> Ready(c, es, |es| - 1) && CleanTimer(es[|es| - 1])
  {
    var n := |es| - 1;
    forall j | 0 <= j < n && Ready(c, es, j)
      ensures !KillSeen(es[j]) && !ExitSeen(es[j])
    {
      ReadyOfPrefix(c, es, n, j);
      assert Ready(c, es[..n], j) && es[..n][j] == es[j];
    }
  }

  /** If something was decided before the last choice but no timer decided, the last choice cannot. */
  lemma NotQuietNotLast(c: Config, es: seq<Event>)
    requires es != [] && !Quiet(c, es[..|es| - 1]) && TimerDecides(c, es, |es| - 1)
    ensures exists i: nat :: i < |es| - 1 && TimerDecides(c, es, i)
  {
    var n := |es| - 1;
    var j :| 0 <= j < n && Ready(c, es[..n], j) && (KillSeen(es[..n][j]) || ExitSeen(es[..n][j]) || CleanTimer(es[..n][j]));
    ReadyOfPrefix(c, es, n, j);
    assert CleanTimer(es[j]);
    assert TimerDecides(c, es, j);
  }

  /** Choice i is a kill or cancellation that was seen, and no choice before it saw the exit. */
  predicate KillBeforeExit(c: Config, es: seq<Event>, i: nat)
    requires i < |es|
  {
    && Ready(c, es, i) && KillSeen(es[i])
    && forall j :: 0 <= j < i && Ready(c, es, j) ==> !ExitSeen(es[j])
  }

  /** Choice i ends the loop: the exit itself, or a timer that sees it before anything else was decided. */
  predicate ExitEnds(c: Config, es: seq<Event>, i: nat)
    requires i < |es|
  {
    es[i].Exit?
    || (&& Ready(c, es, i) && ExitSeen(es[i])
        && forall j :: 0 <= j < i && Ready(c, es, j) ==> !KillSeen(es[j]) && !CleanTimer(es[j]))
  }

  predicate SomeTimerDecides(c: Config, es: seq<Event>) {
    exists i: nat :: i < |es| && TimerDecides(c, es, i)
  }

  predicate SomeKillBeforeExit(c: Config, es: seq<Event>) {
    exists i: nat :: i < |es| && KillBeforeExit(c, es, i)
  }

  predicate SomeExitEnds(c: Config, es: seq<Event>) {
    exists i: nat :: i < |es| && ExitEnds(c, es, i)
  }

  lemma KillOfPrefix(c: Config, es: seq<Event>, n: nat, j: nat)
    requires j < n <= |es|
    ensures KillBeforeExit(c, es[..n], j) == KillBeforeExit(c, es, j)
    ensures ExitEnds(c, es[..n], j) == ExitEnds(c, es, j)
  {
    forall k | 0 <= k <= j
      ensures Ready(c, es[..n], k) == Ready(c, es, k)
    {
      ReadyOfPrefix(c, es, n, k);
    }
  }

  /** One choice more decides something new only if it does so itself. */
  lemma OneChoiceMore(c: Config, es: seq<Event>)
    requires es != []
    ensures var n := |es| - 1;
            && (SomeKillBeforeExit(c, es) <==> SomeKillBeforeExit(c, es[..n]) || KillBeforeExit(c, es, n))
            && (SomeExitEnds(c, es) <==> SomeExitEnds(c, es[..n]) || ExitEnds(c, es, n))
  {
    var n := |es| - 1;
    forall j: nat | j < n
      ensures KillBeforeExit(c, es[..n], j) == KillBeforeExit(c, es, j) && ExitEnds(c, es[..n], j) == ExitEnds(c, es, j)
    {
      KillOfPrefix(c, es, n, j);
    }
    hide KillBeforeExit, ExitEnds;
    if i: nat :| i < |es[..n]| && KillBeforeExit(c, es[..n], i) {
      assert KillBeforeExit(c, es, i);
    }
    if i: nat :| i < |es[..n]| && ExitEnds(c, es[..n], i) {
      assert ExitEnds(c, es, i);
    }
    if i: nat :| i < |es| && KillBeforeExit(c, es, i) {
      assert i < n ==> KillBeforeExit(c, es[..n], i);
    }
    if i: nat :| i < |es| && ExitEnds(c, es, i) {
      assert i < n ==> ExitEnds(c, es[..n], i);
    }
  }

  /** Whatever is not quiet has decided something. */
  lemma DecidedSomehow(c: Config, es: seq<Event>)
    requires !Quiet(c, es)
    ensures SomeTimerDecides(c, es) || SomeKillBeforeExit(c, es) || SomeExitEnds(c, es)
  {
    var j: nat :| j < |es| && Ready(c, es, j) && (KillSeen(es[j]) || ExitSeen(es[j]) || CleanTimer(es[j]));
    FirstDecides(c, es, j);
  }

  lemma {:induction false} FirstDecides(c: Config, es: seq<Event>, j: nat)
    requires j < |es| && Ready(c, es, j) && (KillSeen(es[j]) || ExitSeen(es[j]) || CleanTimer(es[j]))
    ensures SomeTimerDecides(c, es) || SomeKillBeforeExit(c, es) || SomeExitEnds(c, es)
    decreases j
  {
    if k: nat :| k < j && Ready(c, es, k) && (KillSeen(es[k]) || ExitSeen(es[k]) || CleanTimer(es[k])) {
      FirstDecides(c, es, k);
    } else {
      assert TimerDecides(c, es, j) || KillBeforeExit(c, es, j) || ExitEnds(c, es, j);
    }
  }

  /** The last choice counts for nothing once something is decided, except a plain exit. */
  lemma LastAfterDecision(c: Config, es: seq<Event>)
    requires es != []
    requires SomeTimerDecides(c, es[..|es| - 1]) || SomeKillBeforeExit(c, es[..|es| - 1])
    ensures ExitEnds(c, es, |es| - 1) <==> es[|es| - 1].Exit?
  {
    var n := |es| - 1;
    if i: nat :| i < |es[..n]| && TimerDecides(c, es[..n], i) {
      ReadyOfPrefix(c, es, n, i);
      assert Ready(c, es, i) && CleanTimer(es[i]);
    } else {
      var i: nat :| i < |es[..n]| && KillBeforeExit(c, es[..n], i);
      ReadyOfPrefix(c, es, n, i);
      assert Ready(c, es, i) && KillSeen(es[i]);
    }
  }

  /** Once the exit was seen with nothing decided, no later kill comes before it. */
  lemma LastAfterExit(c: Config, es: seq<Event>)
    requires es != [] && SomeExitEnds(c, es[..|es| - 1])
    ensures !KillBeforeExit(c, es, |es| - 1)
  {
    var n := |es| - 1;
    var i: nat :| i < |es[..n]| && ExitEnds(c, es[..n], i);
    ReadyOfPrefix(c, es, n, i);
    assert Ready(c, es, i) && ExitSeen(es[i]);
  }

  /** The loop ends, and a kill is in force, exactly as the choices say. */
  lemma {:induction false} FlagsFollowTheChoices(c: Config, es: seq<Event>)
    ensures !Run(c, es).waiting <==> SomeExitEnds(c, es)
    ensures !Run(c, es).timedOut ==> (Run(c, es).killed <==> SomeKillBeforeExit(c, es))
  {
    if es != [] {
      var n := |es| - 1;
      var s := Run(c, es[..n]);
      FlagsFollowTheChoices(c, es[..n]);
      OneChoiceMore(c, es);
      TimeoutIffTimerDecides(c, es[..n]);
      QuietRun(c, es[..n]);
      Flags(c, s, es[n]);
      if Undecided(s) {
        UndecidedStep(c, s, es[n]);
        LastOfQuiet(c, es);
      } else {
        DecidedStep(c, s, es[n]);
        if s.waiting {
          LastAfterDecision(c, es);
        } else {
          LastAfterExit(c, es);
        }
      }
    }
  }

  lemma LastOfQuiet(c: Config, es: seq<Event>)
    requires es != [] && Quiet(c, es[..|es| - 1])
    ensures var n := |es| - 1;
            && (KillBeforeExit(c, es, n) <==> Ready(c, es, n) && KillSeen(es[n]))
            && (ExitEnds(c, es, n) <==> Ready(c, es, n) && ExitSeen(es[n]))
  {
    var n := |es| - 1;
    forall j | 0 <= j < n && Ready(c, es, j)
      ensures !KillSeen(es[j]) && !ExitSeen(es[j]) && !CleanTimer(es[j])
    {
      ReadyOfPrefix(c, es, n, j);
      assert Ready(c, es[..n], j) && es[..n][j] == es[j];
    }
  }

  /** Once something is decided only the process's exit ends the loop. */
  lemma DecidedStep(c: Config, s: State, e: Event)
    requires !Undecided(s)
    ensures var s' := Step(c, s, e);
            && (s.waiting ==> (s'.waiting <==> !e.Exit?))
            && (!s.waiting ==> s' == s)
            && (s.killed ==> s'.killed)
  {
  }

  /**
   What the loop answers, from the choices alone: it is over when an exit ends it, with a
   timeout if a timer decided, else killed if a kill came before the exit was seen, and
   else by the exit code.
   */
  lemma OutcomeFollowsTheChoices(c: Config, es: seq<Event>, exitedZero: bool)
    ensures var s := Run(c, es);
            && (!s.waiting <==> SomeExitEnds(c, es))
            && FinalStatus(s, exitedZero) ==
               if SomeTimerDecides(c, es) then TimedOut
               else if SomeKillBeforeExit(c, es) then Killed
               else if exitedZero then Completed else Failed
  {
    FlagsFollowTheChoices(c, es);
    TimeoutIffTimerDecides(c, es);
  }

  /** A timeout is the final status whatever kills arrive after it, and a kill is final otherwise. */
  lemma {:induction false} LaterKillsDoNotMatter(c: Config, es: seq<Event>, later: seq<Event>, exitedZero: bool)
    requires Run(c, es).timedOut || Run(c, es).killed
    ensures FinalStatus(Run(c, es + later), exitedZero) == FinalStatus(Run(c, es), exitedZero)
    ensures Run(c, es + later).timedOut == Run(c, es).timedOut && (Run(c, es).killed ==> Run(c, es + later).killed)
    decreases |later|
  {
    if later == [] {
      assert es + later == es;
    } else {
      var n := |later| - 1;
      LaterKillsDoNotMatter(c, es, later[..n], exitedZero);
      assert (es + later)[..|es + later| - 1] == es + later[..n];
      Flags(c, Run(c, es + later[..n]), later[n]);
    }
  }

  /** Every sequence of process effects the loop can have produced so far. */
  predicate EffectsFit(c: Config, s: State) {
    if !s.terminated then s.effects == [] && !s.graceArmed && !s.termDelivered && !s.killed && !s.timedOut
    else
      && (s.killed || s.timedOut)
      && (s.termDelivered <==> c.term.Delivered?)
      && match c.term
         case NoProcess => s.effects == [] && !s.graceArmed
         case AlreadyGone => s.effects == [SendTerm] && !s.graceArmed
         case Refused => s.effects == [SendTerm, GroupKill] && !s.graceArmed
         case Delivered => s.effects == if s.graceArmed then [SendTerm, ArmGrace] else [SendTerm, ArmGrace, GroupKill]
  }

  lemma EffectsStep(c: Config, s: State, e: Event)
    requires EffectsFit(c, s)
    ensures EffectsFit(c, Step(c, s, e))
  {
    if !s.terminated {
      assert s.effects + [SendTerm] == [SendTerm] && s.effects + [SendTerm, GroupKill] == [SendTerm, GroupKill];
      assert s.effects + [SendTerm, ArmGrace] == [SendTerm, ArmGrace];
    }
  }

  lemma {:induction false} EffectsAlwaysFit(c: Config, es: seq<Event>)
    ensures EffectsFit(c, Run(c, es))
  {
    if es != [] {
      EffectsAlwaysFit(c, es[..|es| - 1]);
      EffectsStep(c, Run(c, es[..|es| - 1]), es[|es| - 1]);
    }
  }

  function Count(effects: seq<Effect>, e: Effect): nat {
    multiset(effects)[e]
  }

  /** The effects of a loop that is over. */
  lemma DoneShape(c: Config, s: State)
    requires EffectsFit(c, s)
    ensures AllEffects(s) ==
            if !s.terminated then []
            else
              match c.term
              case NoProcess => []
              case AlreadyGone => [SendTerm]
              case Refused => [SendTerm, GroupKill]
              case Delivered => if s.graceArmed then [SendTerm, ArmGrace, GroupKill] else [SendTerm, ArmGrace, GroupKill, GroupKill]
  {
    if s.terminated && c.term.Delivered? {
      assert [SendTerm, ArmGrace] + [GroupKill] == [SendTerm, ArmGrace, GroupKill];
      assert [SendTerm, ArmGrace, GroupKill] + [GroupKill] == [SendTerm, ArmGrace, GroupKill, GroupKill];
    }
  }

  /**
   When the loop is over: at most one SIGTERM was sent, at most one grace timer was armed,
   directly after it, no group kill came before a SIGTERM, and every SIGTERM that did not
   find the group already gone is followed by a group kill.
   */
  lemma SignalsAreBounded(c: Config, es: seq<Event>)
    ensures var done := AllEffects(Run(c, es));
            && Count(done, SendTerm) <= 1 && Count(done, ArmGrace) <= 1
            && (forall i :: 0 <= i < |done| && done[i] == ArmGrace ==> i > 0 && done[i - 1] == SendTerm)
            && (forall i :: 0 <= i < |done| && done[i] == GroupKill ==> exists j :: 0 <= j < i && done[j] == SendTerm)
            && (forall i :: 0 <= i < |done| && done[i] == SendTerm && !c.term.AlreadyGone? ==>
                  exists j :: i < j < |done| && done[j] == GroupKill)
  {
    EffectsAlwaysFit(c, es);
    DoneShape(c, Run(c, es));
  }

  predicate Decided(c: Config, es: seq<Event>) {
    SomeTimerDecides(c, es) || SomeKillBeforeExit(c, es)
  }

  /** The grace timer runs out after a decision and before the exit. */
  predicate GraceRunsOut(c: Config, es: seq<Event>) {
    exists i: nat :: i < |es| && es[i].Grace? && Decided(c, es[..i]) && !SomeExitEnds(c, es[..i])
  }

  lemma DecidedIffFlagged(c: Config, es: seq<Event>)
    ensures Decided(c, es) <==> Run(c, es).killed || Run(c, es).timedOut
    ensures Decided(c, es) <==> Run(c, es).terminated
  {
    FlagsFollowTheChoices(c, es);
    TimeoutIffTimerDecides(c, es);
    EffectsAlwaysFit(c, es);
  }

  lemma GraceInFront(c: Config, es: seq<Event>)
    requires es != []
    ensures var n := |es| - 1;
            GraceRunsOut(c, es) <==> GraceRunsOut(c, es[..n]) || (es[n].Grace? && Decided(c, es[..n]) && !SomeExitEnds(c, es[..n]))
  {
    hide Decided, SomeExitEnds;
    var n := |es| - 1;
    assert forall i: nat :: i <= n ==> es[..n][..i] == es[..i];
    if i: nat :| i < |es| && es[i].Grace? && Decided(c, es[..i]) && !SomeExitEnds(c, es[..i]) {
      assert i < n ==> es[..n][i].Grace?;
    }
    if i: nat :| i < |es[..n]| && es[..n][i].Grace? && Decided(c, es[..n][..i]) && !SomeExitEnds(c, es[..n][..i]) {
      assert es[i].Grace?;
    }
  }

  lemma {:induction false} GraceKillsTheGroup(c: Config, es: seq<Event>)
    requires c.term.Delivered?
    ensures GroupKill in Run(c, es).effects <==> GraceRunsOut(c, es)
  {
    if es != [] {
      var n := |es| - 1;
      GraceKillsTheGroup(c, es[..n]);
      GraceInFront(c, es);
      DecidedIffFlagged(c, es[..n]);
      FlagsFollowTheChoices(c, es[..n]);
      EffectsAlwaysFit(c, es[..n]);
      GraceStep(c, Run(c, es[..n]), es[n]);
    }
  }

  lemma GraceStep(c: Config, s: State, e: Event)
    requires EffectsFit(c, s) && c.term.Delivered?
    ensures GroupKill in Step(c, s, e).effects <==> GroupKill in s.effects || (e.Grace? && s.terminated && s.waiting)
  {
    EffectsStep(c, s, e);
  }

  /**
   What the process is sent, from the choices alone: SIGTERM exactly after a decision and
   when there is a process, a grace timer exactly when that was delivered, a group kill
   exactly when the group was not gone already, and one while still waiting exactly when the
   grace timer ran out.
   */
  lemma SignalsFollowTheChoices(c: Config, es: seq<Event>)
    ensures var done := AllEffects(Run(c, es));
            && (SendTerm in done <==> Decided(c, es) && !c.term.NoProcess?)
            && (ArmGrace in done <==> Decided(c, es) && c.term.Delivered?)
            && (GroupKill in done <==> Decided(c, es) && (c.term.Delivered? || c.term.Refused?))
            && (c.term.Delivered? ==> (Count(done, GroupKill) == 2 <==> GraceRunsOut(c, es)))
  {
    DecidedIffFlagged(c, es);
    EffectsAlwaysFit(c, es);
    if c.term.Delivered? {
      GraceKillsTheGroup(c, es);
    }
    DoneShape(c, Run(c, es));
  }
}
