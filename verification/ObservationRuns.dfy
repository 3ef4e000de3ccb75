/**
 Every interleaving of the critical sections of Observations: any number of output
 callbacks, each stopped at any point between its snapshot, its status sample and its
 write; status changes; the fallback's reset; ownership and terminal writes; and the
 stop path's marker, which reads the row and writes it back outside `persistMu`.
 */
module ObservationRuns {
  import opened Wrappers
  import opened Observations

  datatype Config = Config(max: nat, startedAt: int)

  datatype Callback = Snapped(s: Snapshot) | Sampled(s: Snapshot, status: Status)

  /** `history[k]` is the snapshot that was current when the heartbeat count was k + 1. */
  datatype World = World(
    mem: Memory,
    gate: Gate,
    row: Option<Row>,
    flight: map<nat, Callback>,
    marks: map<nat, Row>,
    history: seq<Snapshot>)

  datatype Event =
    | Take(id: nat, stream: Stream, chunk: Text, now: int)
    | Sample(id: nat)
    | Persist(id: nat, a: Attempt)
    | Own(a: Attempt)
    | SetStatus(status: Status)
    | Reset(now: int)
    | Tick(now: int)
    | Finish(record: Row, a: Attempt)
    | MarkRead(id: nat)
    | MarkWrite(id: nat, fault: Fault)

  predicate IsMark(e: Event) {
    e.MarkRead? || e.MarkWrite?
  }

  function Init(c: Config): World {
    World(Memory(Running, 0, c.startedAt, Output("", "")), Gate(0, 0, None, Unset, false), None, map[], map[], [])
  }

  predicate Enabled(w: World, e: Event) {
    match e
    case Take(id, _, _, _) => id !in w.flight
    case Sample(id) => id in w.flight && w.flight[id].Snapped?
    case Persist(id, _) => id in w.flight && w.flight[id].Sampled?
    case Finish(record, _) => Terminal(record.status)
    case MarkRead(_) => w.row.Some? && w.row.value.status.Running?
    case MarkWrite(id, _) => id in w.marks
    case _ => true
  }

  function Apply(c: Config, w: World, e: Event): World
    requires Enabled(w, e)
  {
    match e
    case Take(id, stream, chunk, now) =>
      var mem := TakeOutput(w.mem, stream, chunk, now, c.max);
      w.(mem := mem, flight := w.flight[id := Snapped(SnapshotOf(mem))], history := w.history + [SnapshotOf(mem)])
    case Sample(id) =>
      w.(flight := w.flight[id := Sampled(w.flight[id].s, LiveStatus(w.mem.status))])
    case Persist(id, a) =>
      var (gate, row, _) := LiveWrite(w.gate, w.row, w.flight[id].status, Some(w.flight[id].s), c.startedAt, a);
      w.(gate := gate, row := row, flight := w.flight - {id})
    case Own(a) =>
      var (gate, row, _) := LiveWrite(w.gate, w.row, Running, None, c.startedAt, a);
      w.(gate := gate, row := row)
    case SetStatus(status) =>
      w.(mem := w.mem.(status := status))
    case Reset(now) =>
      w.(mem := w.mem.(status := Running, at := now, output := Output("", "")))
    case Tick(now) =>
      var mem := w.mem.(count := w.mem.count + 1, at := now);
      w.(mem := mem, history := w.history + [SnapshotOf(mem)])
    case Finish(record, a) =>
      var (gate, row, _) := FinalWrite(w.gate, w.row, record, a);
      w.(gate := gate, row := row)
    case MarkRead(id) =>
      w.(marks := w.marks[id := w.row.value])
    case MarkWrite(id, fault) =>
      var (row, _) := UpsertOnce(w.row, w.marks[id].(status := Cancelling), fault);
      w.(row := row, marks := w.marks - {id})
  }

  predicate Feasible(c: Config, w: World, es: seq<Event>)
    decreases |es|
  {
    es == [] || (Enabled(w, es[0]) && Feasible(c, Apply(c, w, es[0]), es[1..]))
  }

  function Exec(c: Config, w: World, es: seq<Event>): World
    requires Feasible(c, w, es)
    decreases |es|
  {
    if es == [] then w else Exec(c, Apply(c, w, es[0]), es[1..])
  }

  // ---------------------------------------------------------------------------
  // The invariant
  // ---------------------------------------------------------------------------

  predicate Recorded(h: seq<Snapshot>, s: Snapshot) {
    1 <= s.count <= |h| && h[s.count - 1] == s
  }

  /** A live row carries no output yet, or exactly the snapshot of its own heartbeat count. */
  predicate Faithful(h: seq<Snapshot>, r: Row) {
    if r.count == 0 then r.output.None?
    else r.output.Some? && Recorded(h, Snapshot(r.count, r.at, r.output.value))
  }

  predicate Live(row: Option<Row>) {
    row.None? || !Terminal(row.value.status)
  }

  predicate GateInv(w: World) {
    && !Terminal(w.gate.lastStatus)
    && (w.gate.lastCount == 0 ==> w.gate.lastOutput.None?)
    && (w.gate.lastCount > 0 ==>
          w.gate.lastOutput.Some? && Recorded(w.history, Snapshot(w.gate.lastCount, w.gate.lastAt, w.gate.lastOutput.value)))
  }

  predicate RowInv(w: World) {
    && (w.gate.terminalPersisted <==> !Live(w.row))
    && (w.row.Some? && Live(w.row) ==>
          && Faithful(w.history, w.row.value)
          && w.row.value.count <= w.gate.lastCount
          && (w.row.value.status.Running? || w.row.value.status.Cancelling?)
          && (w.row.value.status == w.gate.lastStatus || w.row.value.status.Cancelling?))
  }

  predicate Inv(w: World) {
    && w.mem.count == |w.history|
    && (forall id :: id in w.flight ==> Recorded(w.history, w.flight[id].s))
    && (forall id :: id in w.flight && w.flight[id].Sampled? ==> w.flight[id].status.Running? || w.flight[id].status.Cancelling?)
    && (forall id :: id in w.marks ==> Faithful(w.history, w.marks[id]) && w.marks[id].count <= w.gate.lastCount)
    && GateInv(w)
    && RowInv(w)
  }

  lemma InitInv(c: Config)
    ensures Inv(Init(c))
  {
  }

  lemma MemoryPreserves(c: Config, w: World, e: Event)
    requires Inv(w) && Enabled(w, e)
    requires e.Sample? || e.SetStatus? || e.Reset? || e.MarkRead?
    ensures Inv(Apply(c, w, e))
  {
  }

  lemma TakePreserves(c: Config, w: World, e: Event)
    requires Inv(w) && Enabled(w, e)
    requires e.Take? || e.Tick?
    ensures Inv(Apply(c, w, e))
  {
    hide AppendTail;
  }

  lemma LiveWriteKeepsGate(c: Config, w: World, status: Status, s: Option<Snapshot>, a: Attempt)
    requires GateInv(w) && (status.Running? || status.Cancelling?)
    requires s.Some? ==> Recorded(w.history, s.value)
    ensures var (gate, row, _) := LiveWrite(w.gate, w.row, status, s, c.startedAt, a);
            GateInv(w.(gate := gate, row := row)) && w.gate.lastCount <= gate.lastCount
  {
  }

  lemma LiveWriteKeepsRow(c: Config, w: World, status: Status, s: Option<Snapshot>, a: Attempt)
    requires GateInv(w) && RowInv(w) && (status.Running? || status.Cancelling?)
    requires s.Some? ==> Recorded(w.history, s.value)
    ensures var (gate, row, _) := LiveWrite(w.gate, w.row, status, s, c.startedAt, a);
            RowInv(w.(gate := gate, row := row))
  {
  }

  lemma CountedWriteNeverLowers(c: Config, w: World, status: Status, s: Snapshot, a: Attempt)
    requires GateInv(w) && RowInv(w)
    requires w.row.Some? && Live(w.row)
    ensures var (_, row, _) := LiveWrite(w.gate, w.row, status, Some(s), c.startedAt, a);
            row.Some? && w.row.value.count <= row.value.count
  {
  }

  lemma StepPreserves(c: Config, w: World, e: Event)
    requires Inv(w) && Enabled(w, e)
    ensures Inv(Apply(c, w, e))
  {
    match e
    case Persist(id, a) =>
      LiveWriteKeepsGate(c, w, w.flight[id].status, Some(w.flight[id].s), a);
      LiveWriteKeepsRow(c, w, w.flight[id].status, Some(w.flight[id].s), a);
    case Own(a) =>
      LiveWriteKeepsGate(c, w, Running, None, a);
      LiveWriteKeepsRow(c, w, Running, None, a);
    case Finish(_, _) =>
    case MarkWrite(_, _) =>
    case Take(_, _, _, _) => TakePreserves(c, w, e);
    case Tick(_) => TakePreserves(c, w, e);
    case _ => MemoryPreserves(c, w, e);
  }

  lemma {:induction false} ReachableInv(c: Config, w: World, es: seq<Event>)
    requires Inv(w) && Feasible(c, w, es)
    ensures Inv(Exec(c, w, es))
    decreases |es|
  {
    if es != [] {
      StepPreserves(c, w, es[0]);
      ReachableInv(c, Apply(c, w, es[0]), es[1..]);
    }
  }

  // ---------------------------------------------------------------------------
  // Main results
  // ---------------------------------------------------------------------------

  function CountOf(row: Option<Row>): nat {
    if row.None? then 0 else row.value.count
  }

  function RankOf(row: Option<Row>): nat {
    if row.None? then 0 else Rank(row.value.status)
  }

  lemma CallbackStep(c: Config, w: World, e: Event)
    requires Inv(w) && Enabled(w, e) && !e.Own? && !IsMark(e)
    ensures var w' := Apply(c, w, e);
            && Inv(w')
            && (Live(w'.row) ==> Live(w.row) && CountOf(w.row) <= CountOf(w'.row))
            && (e.Persist? && !Live(w.row) ==> w'.row == w.row)
  {
    StepPreserves(c, w, e);
    if e.Persist? && w.row.Some? && Live(w.row) {
      CountedWriteNeverLowers(c, w, w.flight[e.id].status, w.flight[e.id].s, e.a);
    }
  }

  /**
   One live write, from any reachable state and whatever other writers did: it never
   lowers the durable heartbeat count, and what it leaves in a live row is the snapshot
   of exactly the row's count, so it cannot bring older output back either.
   */
  lemma LiveWriteNeverLowers(c: Config, es: seq<Event>, id: nat, a: Attempt)
    requires Feasible(c, Init(c), es)
    requires var w := Exec(c, Init(c), es); Enabled(w, Persist(id, a))
    ensures var w := Exec(c, Init(c), es);
            var w' := Apply(c, w, Persist(id, a));
            && CountOf(w.row) <= CountOf(w'.row)
            && (w'.row.Some? && Live(w'.row) ==> Faithful(w'.history, w'.row.value))
            && (!Live(w.row) ==> w'.row == w.row)
  {
    InitInv(c);
    ReachableInv(c, Init(c), es);
    CallbackStep(c, Exec(c, Init(c), es), Persist(id, a));
  }

  /** The status a live write leaves: cancelling once sampled or written, and running otherwise. */
  function OneWay(sampled: Status, last: Status): Status {
    if sampled.Cancelling? || last.Cancelling? then Cancelling else Running
  }

  /**
   One callback that reaches storage over a live row, from any reachable state.  When it is
   not older than what this execution wrote last, the row is exactly its snapshot; when it
   is, a first cancelling goes out with what was written last, and nothing else changes.
   */
  lemma CallbackStoresItsSnapshot(c: Config, es: seq<Event>, id: nat, a: Attempt)
    requires Feasible(c, Init(c), es)
    requires var w := Exec(c, Init(c), es); Enabled(w, Persist(id, a)) && Lands(a) && Live(w.row)
    ensures var w := Exec(c, Init(c), es);
            var w' := Apply(c, w, Persist(id, a));
            var s, sampled := w.flight[id].s, w.flight[id].status;
            if w.gate.lastCount <= s.count then
              && w'.row == Some(Row(OneWay(sampled, w.gate.lastStatus), s.count, s.at, Some(s.output)))
              && w'.gate.lastCount == s.count
            else if sampled.Cancelling? && !w.gate.lastStatus.Cancelling? then
              && w'.row == Some(Row(Cancelling, w.gate.lastCount, w.gate.lastAt, w.gate.lastOutput))
              && w'.gate.lastCount == w.gate.lastCount
            else w'.row == w.row && w'.gate == w.gate
  {
    InitInv(c);
    ReachableInv(c, Init(c), es);
  }

  /** A write that reaches storage over a live row: the ownership write says running without beats, a terminal write its record. */
  lemma OwnershipAndTerminalWritesLand(c: Config, es: seq<Event>, record: Row, a: Attempt)
    requires Feasible(c, Init(c), es) && Terminal(record.status) && Lands(a)
    requires Live(Exec(c, Init(c), es).row)
    ensures var w := Exec(c, Init(c), es);
            && Apply(c, w, Own(a)).row == Some(Row(OneWay(Running, w.gate.lastStatus), 0, c.startedAt, None))
            && Apply(c, w, Finish(record, a)).row == Some(record) && Apply(c, w, Finish(record, a)).gate.terminalPersisted
  {
    InitInv(c);
    ReachableInv(c, Init(c), es);
  }

  /** A write that does not reach storage changes nothing that is stored, and the writer remembers nothing of it. */
  lemma FailedWritesChangeNothing(c: Config, es: seq<Event>, e: Event)
    requires Feasible(c, Init(c), es)
    requires var w := Exec(c, Init(c), es); Enabled(w, e) && Live(w.row)
    requires (e.Persist? || e.Own? || e.Finish?) && !Lands(e.a)
    ensures var w := Exec(c, Init(c), es); Apply(c, w, e).row == w.row && Apply(c, w, e).gate == w.gate
  {
    InitInv(c);
    ReachableInv(c, Init(c), es);
  }

  /**
   Once the terminal observation is recorded no live write, ownership write or marker
   changes the row, and not even another terminal write changes its status.
   */
  lemma {:induction false} TerminalIsForever(c: Config, w: World, es: seq<Event>)
    requires Inv(w) && w.gate.terminalPersisted && Feasible(c, w, es)
    ensures var w' := Exec(c, w, es);
            && w'.gate.terminalPersisted && w'.row.Some?
            && w'.row.value.status == w.row.value.status
            && ((forall i :: 0 <= i < |es| ==> !es[i].Finish?) ==> w'.row == w.row)
    decreases |es|
  {
    if es != [] {
      StepPreserves(c, w, es[0]);
      TerminalIsForever(c, Apply(c, w, es[0]), es[1..]);
    }
  }

  /**
   A sampled cancelling is never lost: unless the row is terminal or storage fails, it lands, however stale its
   snapshot.
   */
  lemma CancellingLands(c: Config, es: seq<Event>, id: nat, a: Attempt)
    requires Feasible(c, Init(c), es)
    requires var w := Exec(c, Init(c), es); Enabled(w, Persist(id, a)) && w.flight[id].status.Cancelling? && w.row.Some? && Live(w.row)
    requires Lands(a)
    ensures var w := Exec(c, Init(c), es);
            var w' := Apply(c, w, Persist(id, a));
            w'.row.Some? && w'.row.value.status.Cancelling? && CountOf(w.row) <= CountOf(w'.row)
  {
    InitInv(c);
    ReachableInv(c, Init(c), es);
  }

  /**
   The ownership write is the executor's only live write that can lower the count: it
   does so exactly when it reaches storage over a live row that already counts beats.
   */
  lemma OwnershipWriteLowersIff(c: Config, es: seq<Event>, a: Attempt)
    requires Feasible(c, Init(c), es)
    ensures var w := Exec(c, Init(c), es);
            CountOf(Apply(c, w, Own(a)).row) < CountOf(w.row)
            <==> Lands(a) && w.row.Some? && Live(w.row) && w.row.value.count > 0
  {
    InitInv(c);
    ReachableInv(c, Init(c), es);
  }

  // ---------------------------------------------------------------------------
  // What the memory holds
  // ---------------------------------------------------------------------------

  function Bounded(text: Text, max: nat): Text {
    if |text| <= max then text else text[|text| - max..]
  }

  /** All chunks of one stream since the last reset, after `before`. */
  function Fed(before: Text, es: seq<Event>, stream: Stream): Text
    decreases |es|
  {
    if es == [] then before
    else
      match es[0]
      case Take(_, of, chunk, _) => Fed(if of == stream then before + chunk else before, es[1..], stream)
      case Reset(_) => Fed("", es[1..], stream)
      case _ => Fed(before, es[1..], stream)
  }

  function Beats(es: seq<Event>): nat {
    if es == [] then 0 else (if es[0].Take? || es[0].Tick? then 1 else 0) + Beats(es[1..])
  }

  /** Appending to a bounded tail and bounding again is bounding the whole. */
  lemma TailOfTail(before: Text, chunk: Text, max: nat)
    ensures AppendTail(Bounded(before, max), chunk, max) == Bounded(before + chunk, max)
  {
    var kept := Bounded(before, max);
    var all, combined := before + chunk, kept + chunk;
    var cut := |all| - |combined|;
    assert combined == all[cut..];
    if |combined| > max {
      assert all[cut..][|combined| - max..] == all[|all| - max..];
    } else if |before| > max {
      assert chunk == "" && all == before;
    }
  }

  lemma MemoryStep(c: Config, w: World, e: Event, out: Text, err: Text)
    requires Enabled(w, e) && w.mem.output == Output(Bounded(out, c.max), Bounded(err, c.max))
    ensures var w' := Apply(c, w, e);
            && w'.mem.output == Output(Bounded(Fed(out, [e], Stdout), c.max), Bounded(Fed(err, [e], Stderr), c.max))
            && w'.mem.count == w.mem.count + Beats([e])
  {
    hide AppendTail, Bounded;
    match e
    case Take(_, Stdout, chunk, _) => TailOfTail(out, chunk, c.max);
    case Take(_, Stderr, chunk, _) => TailOfTail(err, chunk, c.max);
    case Reset(_) => EmptyIsBounded(c.max);
    case _ =>
  }

  lemma EmptyIsBounded(max: nat)
    ensures Bounded("", max) == ""
  {
  }

  lemma {:induction false} MemoryOverRun(c: Config, w: World, es: seq<Event>, out: Text, err: Text)
    requires Feasible(c, w, es) && w.mem.output == Output(Bounded(out, c.max), Bounded(err, c.max))
    ensures var w' := Exec(c, w, es);
            && w'.mem.output == Output(Bounded(Fed(out, es, Stdout), c.max), Bounded(Fed(err, es, Stderr), c.max))
            && w'.mem.count == w.mem.count + Beats(es)
    decreases |es|
  {
    hide Enabled, Apply, Bounded;
    if es != [] {
      MemoryStep(c, w, es[0], out, err);
      MemoryOverRun(c, Apply(c, w, es[0]), es[1..], Fed(out, [es[0]], Stdout), Fed(err, [es[0]], Stderr));
    }
  }

  /**
   Over every interleaving each stream in memory is the bounded tail of exactly its own
   chunks since the last reset, and the count is that of all beats, which no reset takes back.
   */
  lemma StreamsAreKeptApart(c: Config, es: seq<Event>)
    requires Feasible(c, Init(c), es)
    ensures var mem := Exec(c, Init(c), es).mem;
            && mem.output.stdout == Bounded(Fed("", es, Stdout), c.max)
            && mem.output.stderr == Bounded(Fed("", es, Stderr), c.max)
            && mem.count == Beats(es)
  {
    MemoryOverRun(c, Init(c), es, "", "");
  }

  // ---------------------------------------------------------------------------
  // The marker is a second writer
  // ---------------------------------------------------------------------------

  /**
   The steps that move the durable status backward: a callback or an ownership write that
   says running and reaches storage, over a row that the marker made cancelling and this
   execution never did.  A callback must also be fresh enough to be written.
   */
  predicate Reopens(w: World, e: Event) {
    && w.row.Some? && w.row.value.status.Cancelling? && !w.gate.lastStatus.Cancelling?
    && match e
       case Persist(id, a) =>
         id in w.flight && w.flight[id].Sampled? && w.flight[id].status.Running? && w.gate.lastCount <= w.flight[id].s.count && Lands(a)
       case Own(a) => Lands(a)
       case _ => false
  }

  /**
   The steps that lower the heartbeat count of a live row, and so bring older output back:
   an ownership write, which counts nothing, and a marker that read the row before it grew.
   */
  predicate LowersCount(w: World, e: Event) {
    && w.row.Some? && Live(w.row)
    && match e
       case Own(a) => Lands(a) && w.row.value.count > 0
       case MarkWrite(id, fault) => fault.NoFault? && id in w.marks && w.marks[id].count < w.row.value.count
       case _ => false
  }

  /** For every step of every writer: the status moves backward exactly at those steps. */
  lemma StatusStepsBackIff(c: Config, w: World, e: Event)
    requires Inv(w) && Enabled(w, e)
    ensures RankOf(Apply(c, w, e).row) < RankOf(w.row) <==> Reopens(w, e)
  {
    hide AppendTail, Recorded;
  }

  /** For every step of every writer: a row that stays live loses beats exactly at those steps. */
  lemma CountStepsBackIff(c: Config, w: World, e: Event)
    requires Inv(w) && Enabled(w, e)
    ensures var row := Apply(c, w, e).row;
            Live(row) && CountOf(row) < CountOf(w.row) <==> LowersCount(w, e)
  {
    hide AppendTail, Recorded;
  }

  /** No step of the run moves the status backward. */
  predicate StatusNeverBack(c: Config, w: World, es: seq<Event>)
    requires Feasible(c, w, es)
    decreases |es|
  {
    es == [] || (RankOf(w.row) <= RankOf(Apply(c, w, es[0]).row) && StatusNeverBack(c, Apply(c, w, es[0]), es[1..]))
  }

  predicate NoReopening(c: Config, w: World, es: seq<Event>)
    requires Feasible(c, w, es)
    decreases |es|
  {
    es == [] || (!Reopens(w, es[0]) && NoReopening(c, Apply(c, w, es[0]), es[1..]))
  }

  /** No step of the run lowers the count of a row that stays live. */
  predicate CountNeverBack(c: Config, w: World, es: seq<Event>)
    requires Feasible(c, w, es)
    decreases |es|
  {
    es == []
    || (&& (Live(Apply(c, w, es[0]).row) ==> CountOf(w.row) <= CountOf(Apply(c, w, es[0]).row))
        && CountNeverBack(c, Apply(c, w, es[0]), es[1..]))
  }

  predicate NoLowering(c: Config, w: World, es: seq<Event>)
    requires Feasible(c, w, es)
    decreases |es|
  {
    es == [] || (!LowersCount(w, es[0]) && NoLowering(c, Apply(c, w, es[0]), es[1..]))
  }

  /**
   Over every run of all writers the durable status moves only running, cancelling,
   terminal, exactly when no step of the run reopens a marked row.
   */
  lemma {:induction false} StatusIsOneWay(c: Config, w: World, es: seq<Event>)
    requires Inv(w) && Feasible(c, w, es)
    ensures StatusNeverBack(c, w, es) <==> NoReopening(c, w, es)
    ensures NoReopening(c, w, es) ==> RankOf(w.row) <= RankOf(Exec(c, w, es).row)
    decreases |es|
  {
    hide Enabled, Apply, Inv, Reopens;
    if es != [] {
      StatusStepsBackIff(c, w, es[0]);
      StepPreserves(c, w, es[0]);
      StatusIsOneWay(c, Apply(c, w, es[0]), es[1..]);
    }
  }

  predicate InStep(w: World) {
    w.row.Some? && Live(w.row) ==> w.row.value.status == w.gate.lastStatus
  }

  lemma StaysInStep(c: Config, w: World, e: Event)
    requires Inv(w) && InStep(w) && Enabled(w, e) && !IsMark(e)
    ensures InStep(Apply(c, w, e)) && !Reopens(w, e)
  {
    hide AppendTail, Recorded;
  }

  /** Only the marker opens the way: in a run without it nothing reopens. */
  lemma {:induction false} WithoutMarkerNothingReopens(c: Config, w: World, es: seq<Event>)
    requires Inv(w) && InStep(w) && Feasible(c, w, es)
    requires forall i :: 0 <= i < |es| ==> !IsMark(es[i])
    ensures NoReopening(c, w, es)
    decreases |es|
  {
    hide Enabled, Apply, Inv, Reopens, InStep;
    if es != [] {
      StepPreserves(c, w, es[0]);
      StaysInStep(c, w, es[0]);
      WithoutMarkerNothingReopens(c, Apply(c, w, es[0]), es[1..]);
    }
  }

  lemma LiveBefore(c: Config, w: World, e: Event)
    requires Inv(w) && Enabled(w, e)
    ensures Live(Apply(c, w, e).row) ==> Live(w.row)
  {
    hide AppendTail, Recorded;
  }

  /**
   Over every run of all writers the live row never loses beats exactly when no step of it
   is such a step; its output is always that of its own count, so it is then never older.
   */
  lemma {:induction false} LiveRunsOnlyGrow(c: Config, w: World, es: seq<Event>)
    requires Inv(w) && Feasible(c, w, es)
    ensures CountNeverBack(c, w, es) <==> NoLowering(c, w, es)
    ensures var w' := Exec(c, w, es);
            Live(w'.row) ==>
              && Live(w.row) && (NoLowering(c, w, es) ==> CountOf(w.row) <= CountOf(w'.row))
              && (w'.row.Some? ==> Faithful(w'.history, w'.row.value))
    decreases |es|
  {
    hide Enabled, Apply, LowersCount, Faithful, Recorded;
    if es != [] {
      CountStepsBackIff(c, w, es[0]);
      LiveBefore(c, w, es[0]);
      StepPreserves(c, w, es[0]);
      LiveRunsOnlyGrow(c, Apply(c, w, es[0]), es[1..]);
    }
  }

  /** The largest count among the callbacks of the run that reached storage while the row was live. */
  function Freshest(c: Config, w: World, es: seq<Event>): nat
    requires Feasible(c, w, es)
    decreases |es|
  {
    if es == [] then 0
    else
      var rest := Freshest(c, Apply(c, w, es[0]), es[1..]);
      Max(if es[0].Persist? && Lands(es[0].a) && Live(w.row) then w.flight[es[0].id].s.count else 0, rest)
  }

  function Max(a: nat, b: nat): nat {
    if a < b then b else a
  }

  lemma FreshestStep(c: Config, w: World, e: Event)
    requires Inv(w) && Enabled(w, e)
    ensures var w' := Apply(c, w, e);
            && w'.gate.lastCount == Max(w.gate.lastCount, if e.Persist? && Lands(e.a) && Live(w.row) then w.flight[e.id].s.count else 0)
            && (!LowersCount(w, e) && Live(w'.row) && CountOf(w.row) == w.gate.lastCount ==> CountOf(w'.row) == w'.gate.lastCount)
  {
    hide AppendTail, Recorded;
  }

  lemma {:induction false} RunIsAsFreshAsItsWrites(c: Config, w: World, es: seq<Event>)
    requires Inv(w) && Feasible(c, w, es)
    ensures var w' := Exec(c, w, es);
            && w'.gate.lastCount == Max(w.gate.lastCount, Freshest(c, w, es))
            && (NoLowering(c, w, es) && CountOf(w.row) == w.gate.lastCount && Live(w'.row) ==> CountOf(w'.row) == w'.gate.lastCount)
    decreases |es|
  {
    hide Enabled, Apply, LowersCount, Lands, Inv;
    if es != [] {
      FreshestStep(c, w, es[0]);
      StepPreserves(c, w, es[0]);
      RunIsAsFreshAsItsWrites(c, Apply(c, w, es[0]), es[1..]);
      LiveAllAlong(c, Apply(c, w, es[0]), es[1..]);
    }
  }

  lemma {:induction false} LiveAllAlong(c: Config, w: World, es: seq<Event>)
    requires Inv(w) && Feasible(c, w, es)
    ensures Live(Exec(c, w, es).row) ==> Live(w.row)
    decreases |es|
  {
    hide Enabled, Apply, Inv;
    if es != [] {
      LiveBefore(c, w, es[0]);
      StepPreserves(c, w, es[0]);
      LiveAllAlong(c, Apply(c, w, es[0]), es[1..]);
    }
  }

  /**
   Over every run without a lowering step the count of a live row is exactly the largest one
   that a callback brought to storage: the row neither falls behind nor runs ahead.
   */
  lemma LiveRowIsTheFreshest(c: Config, es: seq<Event>)
    requires Feasible(c, Init(c), es) && NoLowering(c, Init(c), es)
    ensures var row := Exec(c, Init(c), es).row;
            Live(row) ==> CountOf(row) == Freshest(c, Init(c), es)
  {
    InitInv(c);
    RunIsAsFreshAsItsWrites(c, Init(c), es);
  }

  /** A callback moves the row backward exactly when it is such a step. */
  lemma LiveWriteReopensIff(c: Config, es: seq<Event>, id: nat, a: Attempt)
    requires Feasible(c, Init(c), es)
    requires var w := Exec(c, Init(c), es); Enabled(w, Persist(id, a))
    ensures var w := Exec(c, Init(c), es);
            RankOf(Apply(c, w, Persist(id, a)).row) < RankOf(w.row)
            <==> && w.row.Some? && w.row.value.status.Cancelling?
                 && !w.gate.lastStatus.Cancelling?
                 && w.flight[id].status.Running?
                 && w.gate.lastCount <= w.flight[id].s.count
                 && Lands(a)
  {
    InitInv(c);
    ReachableInv(c, Init(c), es);
    StatusStepsBackIff(c, Exec(c, Init(c), es), Persist(id, a));
  }

  /** An ownership write does so whenever it reaches a row that only the marker made cancelling. */
  lemma OwnershipWriteReopensIff(c: Config, es: seq<Event>, a: Attempt)
    requires Feasible(c, Init(c), es)
    ensures var w := Exec(c, Init(c), es);
            RankOf(Apply(c, w, Own(a)).row) < RankOf(w.row)
            <==> Lands(a) && w.row.Some? && w.row.value.status.Cancelling? && !w.gate.lastStatus.Cancelling?
  {
    InitInv(c);
    ReachableInv(c, Init(c), es);
    StatusStepsBackIff(c, Exec(c, Init(c), es), Own(a));
  }

  /** The marker's write back lowers the count exactly when it is stored over a live row that grew since it was read. */
  lemma MarkerLowersCountIff(c: Config, es: seq<Event>, id: nat, fault: Fault)
    requires Feasible(c, Init(c), es)
    requires var w := Exec(c, Init(c), es); Enabled(w, MarkWrite(id, fault))
    ensures var w := Exec(c, Init(c), es);
            CountOf(Apply(c, w, MarkWrite(id, fault)).row) < CountOf(w.row)
            <==> fault.NoFault? && w.row.Some? && Live(w.row) && w.marks[id].count < w.row.value.count
  {
    InitInv(c);
    ReachableInv(c, Init(c), es);
  }

  predicate EndsWith(c: Config, es: seq<Event>, status: Status) {
    Feasible(c, Init(c), es) && (var row := Exec(c, Init(c), es).row; row.Some? && row.value.status == status)
  }

  /** Own the row, then take and sample one callback. */
  function SampledRun(): seq<Event> {
    [Own(Attempt(NoFault, false, NoFault)), Take(0, Stdout, "a", 1), Sample(0)]
  }

  /** Meanwhile the stop path marks the row. */
  function MarkedRun(): seq<Event> {
    SampledRun() + [MarkRead(0), MarkWrite(0, NoFault)]
  }

  lemma SampledRunEnds(c: Config) returns (w: World)
    ensures Feasible(c, Init(c), SampledRun()) && w == Exec(c, Init(c), SampledRun())
    ensures w.row == Some(Row(Running, 0, c.startedAt, None)) && w.gate == Gate(0, 0, None, Running, false)
    ensures 0 in w.flight && w.flight[0].Sampled? && w.flight[0].status == Running && w.flight[0].s.count == 1
  {
    var es := SampledRun();
    var w1 := Apply(c, Init(c), es[0]);
    var w2 := Apply(c, w1, es[1]);
    w := Apply(c, w2, es[2]);
    Unfold(c, Init(c), es, [w1, w2, w]);
  }

  lemma MarkedRunEnds(c: Config) returns (w: World)
    ensures Feasible(c, Init(c), MarkedRun()) && w == Exec(c, Init(c), MarkedRun())
    ensures w.row.Some? && w.row.value.status == Cancelling && w.gate == Gate(0, 0, None, Running, false)
    ensures 0 in w.flight && w.flight[0].Sampled? && w.flight[0].status == Running
  {
    var w3 := SampledRunEnds(c);
    var es := [MarkRead(0), MarkWrite(0, NoFault)];
    var w4 := Apply(c, w3, es[0]);
    w := Apply(c, w4, es[1]);
    Unfold(c, w3, es, [w4, w]);
    Concat(c, Init(c), SampledRun(), es);
  }

  /** Such runs exist: the stop path marks the row cancelling, then a callback in flight, or an ownership write, says running. */
  lemma MarkerCanBeOverwritten(c: Config)
    ensures EndsWith(c, MarkedRun(), Cancelling)
    ensures EndsWith(c, MarkedRun() + [Persist(0, Attempt(NoFault, false, NoFault))], Running)
    ensures EndsWith(c, MarkedRun() + [Own(Attempt(NoFault, false, NoFault))], Running)
  {
    var w := MarkedRunEnds(c);
    OneMore(c, MarkedRun(), Persist(0, Attempt(NoFault, false, NoFault)));
    OneMore(c, MarkedRun(), Own(Attempt(NoFault, false, NoFault)));
  }

  lemma OneMore(c: Config, es: seq<Event>, last: Event)
    requires Feasible(c, Init(c), es) && Enabled(Exec(c, Init(c), es), last)
    ensures Feasible(c, Init(c), es + [last])
    ensures Exec(c, Init(c), es + [last]) == Apply(c, Exec(c, Init(c), es), last)
  {
    hide Enabled, Apply;
    var w := Exec(c, Init(c), es);
    Unfold(c, w, [last], [Apply(c, w, last)]);
    Concat(c, Init(c), es, [last]);
  }

  /** The marker reads the row, a callback is stored, and the write back takes its beat and its output away. */
  lemma MarkerCanLowerTheCount(c: Config)
    ensures var before := SampledRun() + [MarkRead(0), Persist(0, Attempt(NoFault, false, NoFault))];
            var run := before + [MarkWrite(0, NoFault)];
            && Feasible(c, Init(c), before) && CountOf(Exec(c, Init(c), before).row) == 1
            && Feasible(c, Init(c), run) && Exec(c, Init(c), run).row == Some(Row(Cancelling, 0, c.startedAt, None))
  {
    var w := SampledRunEnds(c);
    var es := [MarkRead(0), Persist(0, Attempt(NoFault, false, NoFault))];
    var w1 := Apply(c, w, es[0]);
    Unfold(c, w, es, [w1, Apply(c, w1, es[1])]);
    Concat(c, Init(c), SampledRun(), es);
    OneMore(c, SampledRun() + es, MarkWrite(0, NoFault));
  }

  lemma {:induction false} Concat(c: Config, w: World, es: seq<Event>, fs: seq<Event>)
    requires Feasible(c, w, es) && Feasible(c, Exec(c, w, es), fs)
    ensures Feasible(c, w, es + fs) && Exec(c, w, es + fs) == Exec(c, Exec(c, w, es), fs)
    decreases |es|
  {
    hide Enabled, Apply;
    if es == [] {
      assert es + fs == fs;
    } else {
      assert (es + fs)[1..] == es[1..] + fs;
      Concat(c, Apply(c, w, es[0]), es[1..], fs);
    }
  }

  ghost predicate Links(c: Config, w: World, es: seq<Event>, ws: seq<World>, i: nat)
    requires |ws| == |es| && i < |es|
  {
    var before := if i == 0 then w else ws[i - 1];
    Enabled(before, es[i]) && ws[i] == Apply(c, before, es[i])
  }

  /** A chain of enabled steps is a feasible run that ends at the last state of the chain. */
  lemma {:induction false} Unfold(c: Config, w: World, es: seq<Event>, ws: seq<World>)
    requires |ws| == |es|
    requires forall i :: 0 <= i < |es| ==> Links(c, w, es, ws, i)
    ensures Feasible(c, w, es)
    ensures Exec(c, w, es) == if es == [] then w else ws[|ws| - 1]
    decreases |es|
  {
    if es != [] {
      assert Links(c, w, es, ws, 0);
      forall i | 0 <= i < |es[1..]|
        ensures Links(c, ws[0], es[1..], ws[1..], i)
      {
        assert Links(c, w, es, ws, i + 1);
      }
      Unfold(c, ws[0], es[1..], ws[1..]);
    }
  }
}
