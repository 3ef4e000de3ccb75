/**
 The durable observations of one agent execution (internal/agent/executor.go).

 stdout and stderr callbacks snapshot the in-memory state under one lock (`mu`),
 sample the lifecycle status under the same lock later, and write the durable row
 under another lock (`persistMu`).  Kill, timeout, native-resume fallback, the
 terminal write and the stop path's own "cancelling" marker race with them.

 Each critical section is a pure function and a method that runs it on fields; the module
 ObservationRuns interleaves them freely, with every write able to fail.
 */
module Observations {
  import opened Wrappers

  type Text = seq<char>

  datatype Status = Unset | Running | Cancelling | Completed | Failed | Timeout | Killed

  /** storage.IsTerminalAgentExecutionStatus. */
  predicate Terminal(s: Status) {
    s.Completed? || s.Failed? || s.Timeout? || s.Killed?
  }

  /** running < cancelling < terminal. */
  function Rank(s: Status): nat {
    if Terminal(s) then 2 else if s.Cancelling? then 1 else 0
  }

  datatype Output = Output(stdout: Text, stderr: Text)

  datatype Snapshot = Snapshot(count: nat, at: int, output: Output)

  datatype Row = Row(status: Status, count: nat, at: int, output: Option<Output>)

  /** What one storage attempt does: succeed, report a busy database, or break. */
  datatype Fault = NoFault | Busy | Broken

  /** One call of the retrying upsert: a first try, whether the context ends in the pause, a second try. */
  datatype Attempt = Attempt(first: Fault, cancelled: bool, second: Fault)

  datatype WriteError = Ok | Conflict | BusyError | StorageError | ContextDone

  // ---------------------------------------------------------------------------
  // Storage
  // ---------------------------------------------------------------------------

  /** The WHERE clause of the upsert: a terminal row accepts only its own status. */
  predicate Accepts(row: Option<Row>, record: Row) {
    row.Some? && !(row.value.status.Running? || row.value.status.Cancelling?) ==> record.status == row.value.status
  }

  function UpsertOnce(row: Option<Row>, record: Row, fault: Fault): (r: (Option<Row>, WriteError)) {
    match fault
    case Busy => (row, BusyError)
    case Broken => (row, StorageError)
    case NoFault => if Accepts(row, record) then (Some(record), Ok) else (row, Conflict)
  }

  function UpsertWithRetry(row: Option<Row>, record: Row, a: Attempt): (r: (Option<Row>, WriteError)) {
    var first := UpsertOnce(row, record, a.first);
    if !first.1.BusyError? then first
    else if a.cancelled then (row, ContextDone)
    else UpsertOnce(row, record, a.second)
  }

  /** The attempt reaches storage, at once or on the retry. */
  predicate Lands(a: Attempt) {
    a.first.NoFault? || (a.first.Busy? && !a.cancelled && a.second.NoFault?)
  }

  /**
   A write is stored exactly when it reaches storage and the row is not terminal with
   another status; otherwise it changes nothing and says why.
   */
  lemma WriteAnswers(row: Option<Row>, record: Row, a: Attempt)
    ensures var (row', err) := UpsertWithRetry(row, record, a);
            var welcome := row.Some? ==> row.value.status in {Running, Cancelling, record.status};
            && (err == Ok <==> Lands(a) && welcome)
            && (err == Conflict <==> Lands(a) && !welcome)
            && (err == ContextDone <==> a.first.Busy? && a.cancelled)
            && (err == BusyError <==> a.first.Busy? && !a.cancelled && a.second.Busy?)
            && (err == StorageError <==> a.first.Broken? || (a.first.Busy? && !a.cancelled && a.second.Broken?))
            && row' == if err == Ok then Some(record) else row
  {
  }

  /** The durable table, narrowed to the row of this execution. */
  class AgentExecutions {
    var row: Option<Row>

    constructor ()
      ensures row == None
    {
      row := None;
    }

    method Upsert(record: Row, fault: Fault) returns (err: WriteError)
      modifies this
      ensures (row, err) == UpsertOnce(old(row), record, fault)
    {
      if fault.Busy? {
        return BusyError;
      }
      if fault.Broken? {
        return StorageError;
      }
      if row.Some? && !(row.value.status.Running? || row.value.status.Cancelling?) && record.status != row.value.status {
        return Conflict;
      }
      row := Some(record);
      err := Ok;
    }

    /** At most one retry, and only after a busy report. */
    method UpsertRetrying(record: Row, a: Attempt) returns (err: WriteError)
      modifies this
      ensures (row, err) == UpsertWithRetry(old(row), record, a)
    {
      err := Upsert(record, a.first);
      if err != BusyError {
        return;
      }
      if a.cancelled {
        return ContextDone;
      }
      err := Upsert(record, a.second);
    }
  }

  // ---------------------------------------------------------------------------
  // The critical sections of an execution
  // ---------------------------------------------------------------------------

  /** Fields guarded by `mu`. */
  datatype Memory = Memory(status: Status, count: nat, at: int, output: Output)

  /** Fields guarded by `persistMu`. */
  datatype Gate = Gate(lastCount: nat, lastAt: int, lastOutput: Option<Output>, lastStatus: Status,
      terminalPersisted: bool)

  datatype Stream = Stdout | Stderr

  function AppendTail(existing: Text, chunk: Text, max: nat): (r: Text)
    ensures |r| <= max
    ensures if |existing + chunk| <= max then r == existing + chunk else |r| == max
    ensures exists k :: 0 <= k <= |existing + chunk| && r == (existing + chunk)[k..]
  {
    var combined := existing + chunk;
    if |combined| <= max then
      assert combined == combined[0..];
      combined
    else
      combined[|combined| - max..]
  }

  function TakeOutput(m: Memory, stream: Stream, chunk: Text, now: int, max: nat): Memory {
    var output := match stream
      case Stdout => m.output.(stdout := AppendTail(m.output.stdout, chunk, max))
      case Stderr => m.output.(stderr := AppendTail(m.output.stderr, chunk, max));
    m.(count := m.count + 1, at := now, output := output)
  }

  function SnapshotOf(m: Memory): Snapshot {
    Snapshot(m.count, m.at, m.output)
  }

  function LiveStatus(s: Status): (r: Status)
    ensures r.Running? || r.Cancelling?
    ensures r.Cancelling? <==> s.Cancelling? || s.Timeout? || s.Killed?
  {
    if !Terminal(s) then (if s.Unset? then Running else s)
    else if s.Timeout? || s.Killed? then Cancelling
    else Running
  }

  /** The record a live write sends to storage, or None when the observation is dropped. */
  function LiveRecord(g: Gate, status: Status, s: Option<Snapshot>, startedAt: int): Option<Row> {
    if g.terminalPersisted then None
    else if s.Some? && s.value.count < g.lastCount then
      if !status.Cancelling? || g.lastStatus.Cancelling? then None
      else Some(Row(Cancelling, g.lastCount, g.lastAt, g.lastOutput))
    else
      var oneWay := if status.Running? && g.lastStatus.Cancelling? then Cancelling else status;
      match s
      case None => Some(Row(oneWay, 0, startedAt, None))
      case Some(v) => Some(Row(oneWay, v.count, v.at, Some(v.output)))
  }

  /** What the writer remembers after its record was stored. */
  function Remember(g: Gate, record: Row, counted: bool): Gate {
    var g1 := g.(lastStatus := record.status);
    var g2 := if counted then g1.(lastCount := record.count, lastAt := record.at) else g1;
    if record.output.Some? then g2.(lastOutput := record.output) else g2
  }

  /** persistStatus as a function: new writer state, new row, error. */
  function LiveWrite(g: Gate, row: Option<Row>, status: Status, s: Option<Snapshot>, startedAt: int,
      a: Attempt): (Gate, Option<Row>, WriteError) {
    match LiveRecord(g, status, s, startedAt)
    case None => (g, row, Ok)
    case Some(record) =>
      var (row', err) := UpsertWithRetry(row, record, a);
      (if err.Ok? then Remember(g, record, s.Some?) else g, row', err)
  }

  /** persistFinal as a function. */
  function FinalWrite(g: Gate, row: Option<Row>, record: Row, a: Attempt): (Gate, Option<Row>, WriteError) {
    var (row', err) := UpsertWithRetry(row, record, a);
    (if err.Ok? || err.Conflict? then g.(terminalPersisted := true) else g, row', err)
  }

  class Execution {
    const repo: AgentExecutions
    const maxOutputBytes: nat
    const startedAt: int

    var status: Status
    var heartbeatCount: nat
    var lastHeartbeatAt: int
    var stdout: Text
    var stderr: Text

    var lastPersistedHeartbeatCount: nat
    var lastPersistedHeartbeatAt: int
    var lastPersistedOutput: Option<Output>
    var lastPersistedStatus: Status
    var terminalPersisted: bool

    ghost function Mem(): Memory
      reads this
    {
      Memory(status, heartbeatCount, lastHeartbeatAt, Output(stdout, stderr))
    }

    ghost function Writer(): Gate
      reads this
    {
      Gate(lastPersistedHeartbeatCount, lastPersistedHeartbeatAt, lastPersistedOutput, lastPersistedStatus, terminalPersisted)
    }

    constructor (repo: AgentExecutions, maxOutputBytes: nat, startedAt: int)
      ensures this.repo == repo && this.maxOutputBytes == maxOutputBytes && this.startedAt == startedAt
      ensures Mem() == Memory(Running, 0, startedAt, Output("", ""))
      ensures Writer() == Gate(0, 0, None, Unset, false)
    {
      this.repo := repo;
      this.maxOutputBytes := maxOutputBytes;
      this.startedAt := startedAt;
      status, heartbeatCount, lastHeartbeatAt := Running, 0, startedAt;
      stdout, stderr := "", "";
      lastPersistedHeartbeatCount, lastPersistedHeartbeatAt, lastPersistedOutput := 0, 0, None;
      lastPersistedStatus, terminalPersisted := Unset, false;
    }

    /** First critical section of onOutput, under mu. */
    method TakeOutputLocked(stream: Stream, chunk: Text, now: int) returns (s: Snapshot)
      modifies this`heartbeatCount, this`lastHeartbeatAt, this`stdout, this`stderr
      ensures Mem() == TakeOutput(old(Mem()), stream, chunk, now, maxOutputBytes)
      ensures s == SnapshotOf(Mem())
    {
      heartbeatCount := heartbeatCount + 1;
      lastHeartbeatAt := now;
      if stream == Stdout {
        stdout := AppendTail(stdout, chunk, maxOutputBytes);
      } else {
        stderr := AppendTail(stderr, chunk, maxOutputBytes);
      }
      s := Snapshot(heartbeatCount, now, Output(stdout, stderr));
    }

    /** Second critical section: the status sample, independent of the snapshot. */
    method LiveObservationStatus() returns (s: Status)
      ensures s == LiveStatus(status)
    {
      if !Terminal(status) {
        return if status == Unset then Running else status;
      }
      if status == Timeout || status == Killed {
        return Cancelling;
      }
      return Running;
    }

    /** persistStatus, under persistMu. */
    method PersistStatus(sampled: Status, snapshot: Option<Snapshot>, a: Attempt) returns (err: WriteError)
      modifies this`lastPersistedHeartbeatCount, this`lastPersistedHeartbeatAt, this`lastPersistedOutput, this`lastPersistedStatus, repo
      ensures (Writer(), repo.row, err) == LiveWrite(old(Writer()), old(repo.row), sampled, snapshot, startedAt, a)
    {
      if terminalPersisted {
        return Ok;
      }
      var count, at, output := None, None, None;
      if snapshot.Some? {
        count, at, output := Some(snapshot.value.count), Some(snapshot.value.at), Some(snapshot.value.output);
      }
      var live := sampled;
      if count.Some? && count.value < lastPersistedHeartbeatCount {
        if live != Cancelling || lastPersistedStatus == Cancelling {
          return Ok;
        }
        count, at, output := Some(lastPersistedHeartbeatCount), Some(lastPersistedHeartbeatAt), lastPersistedOutput;
      }
      if live == Running && lastPersistedStatus == Cancelling {
        live := Cancelling;
      }
      var record := Row(live, 0, startedAt, output);
      if count.Some? {
        record := record.(count := count.value, at := at.value);
      }
      err := repo.UpsertRetrying(record, a);
      if err == Ok {
        lastPersistedStatus := live;
        if count.Some? {
          lastPersistedHeartbeatCount, lastPersistedHeartbeatAt := count.value, at.value;
        }
        if output.Some? {
          lastPersistedOutput := output;
        }
      }
    }

    /** persistFinal, under persistMu. */
    method PersistFinal(record: Row, a: Attempt) returns (err: WriteError)
      modifies this`terminalPersisted, repo
      ensures (Writer(), repo.row, err) == FinalWrite(old(Writer()), old(repo.row), record, a)
    {
      err := repo.UpsertRetrying(record, a);
      if err == Ok || err == Conflict {
        terminalPersisted := true;
      }
    }

    /** onOutput run to its end with nothing in between. */
    method OnOutput(stream: Stream, chunk: Text, now: int, a: Attempt) returns (err: WriteError)
      modifies this, repo
      ensures Mem() == TakeOutput(old(Mem()), stream, chunk, now, maxOutputBytes)
      ensures (Writer(), repo.row, err) ==
              LiveWrite(old(Writer()), old(repo.row), LiveStatus(old(status)), Some(SnapshotOf(Mem())), startedAt, a)
    {
      var s := TakeOutputLocked(stream, chunk, now);
      var live := LiveObservationStatus();
      err := PersistStatus(live, Some(s), a);
    }
  }
}
