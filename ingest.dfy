/**
 * The batched transactional writer of leaky.go: `scanlines` feeds each line of
 * one stream to `process`, opens a transaction whenever the batch counter is
 * 0, commits after the record processed at counter MAX, and commits once more
 * after the loop.  `store`, the insert, rolls the shared transaction back when
 * the insert fails.
 *
 * The database is an abstract transactional sink: records inserted into the
 * open transaction are `pending`; a commit appends them to `committed`.  Which
 * calls into the database fail is given by a `Faults` value, indexed by the
 * position of the line within its stream.
 */
module Ingest {
  import opened Wrappers
  import opened Text
  import opened Records

  /** MAX_TRANSACTIONS_PER_COMMIT, scaled down from 1,000,000. */
  const MaxTransactionsPerCommit: nat := 2

  /**
   * The number of records in a full batch.  The counter runs from 0 up to
   * MaxTransactionsPerCommit inclusive before the commit, so a batch holds
   * one record more than the constant says.
   */
  const BatchSize: nat := MaxTransactionsPerCommit + 1

  /** The `tx` handle of `scanlines`: nil, or a transaction in one of its three states. */
  datatype TxState = NoTx | Open | RolledBack | Committed

  /** Which database calls fail, by the index of the line they are made for. */
  datatype Faults = Faults(beginFails: set<nat>, prepareFails: set<nat>, execFails: set<nat>)

  /** Why the loop of `scanlines` ended. */
  datatype Stop =
    | EndOfStream
    | BeginFailed(at: nat)
    | SeparatorMissing(line: string)
    | StatementFailed(line: string)
    | SaveFailed(line: string)

  /**
   * Everything `scanlines` and the sink keep: the counter `i`, the transaction,
   * the records of the open transaction, the committed records, the size of
   * every committed transaction, and the line indices at which the partition
   * hook ran.
   */
  datatype State = State(
    i: nat,
    tx: TxState,
    pending: seq<Record>,
    committed: seq<Record>,
    batches: seq<nat>,
    hooks: seq<nat>)

  /** The result of one step of the loop: carry on, or leave the loop. */
  datatype Step = Next(state: State) | Halt(state: State, stop: Stop)

  /** What one call of `scanlines` leaves behind; `panicked` is the final commit on a nil `tx`. */
  datatype Outcome = Outcome(state: State, stop: Stop, panicked: bool)

  // ---- The specification: one function per step of the source ----

  /** `addpartition`, when partitioning is enabled: the hook log grows by the line index. */
  function Hook(s: State, k: nat, partition: bool): State
  {
    if partition then s.(hooks := s.hooks + [k]) else s
  }

  /** `db.Begin()`: a fresh, empty transaction, or a nil handle when it fails. */
  function BeginSpec(s: State, k: nat, f: Faults): Step
  {
    if k in f.beginFails then Halt(s.(tx := NoTx, pending := []), BeginFailed(k))
    else Next(s.(tx := Open, pending := []))
  }

  /**
   * `store`: a failing Prepare leaves the transaction as it is; a failing Exec
   * rolls it back, discarding its records; otherwise the record is inserted.
   */
  function StoreSpec(s: State, rec: Record, line: string, k: nat, f: Faults): Step
  {
    if k in f.prepareFails then Halt(s, StatementFailed(line))
    else if k in f.execFails then Halt(s.(tx := RolledBack, pending := []), SaveFailed(line))
    else Next(s.(pending := s.pending + [rec]))
  }

  /** `process`: parse the line, then store the record. */
  function ProcessSpec(s: State, line: string, k: nat, f: Faults): Step
  {
    match Parse(line)
    case Err(_) => Halt(s, SeparatorMissing(line))
    case Ok(rec) => StoreSpec(s, rec, line, k, f)
  }

  /** `tx.Commit()` on a non-nil handle: only an open transaction has an effect. */
  function CommitSpec(s: State): State
  {
    if s.tx == Open then
      s.(tx := Committed, committed := s.committed + s.pending,
         batches := s.batches + [|s.pending|], pending := [])
    else s
  }

  /** One iteration of the loop of `scanlines` for the line at index `k`. */
  function LineStep(s: State, line: string, k: nat, f: Faults, partition: bool): Step
  {
    var b := if s.i == 0 then BeginSpec(Hook(s, k, partition), k, f) else Next(s);
    if b.Halt? then b
    else
      var p := ProcessSpec(b.state, line, k, f);
      if p.Halt? then p
      else if p.state.i == MaxTransactionsPerCommit then Next(CommitSpec(p.state.(i := 0)))
      else Next(p.state.(i := p.state.i + 1))
  }

  /** The loop of `scanlines` from line `k` on, up to the end of the lines or the first error. */
  function Run(s: State, lines: seq<string>, k: nat, f: Faults, partition: bool): (State, Stop)
    decreases |lines| - k
  {
    if k >= |lines| then (s, EndOfStream)
    else
      match LineStep(s, lines[k], k, f, partition)
      case Next(t) => Run(t, lines, k + 1, f, partition)
      case Halt(t, stop) => (t, stop)
  }

  /** The locals of `scanlines` at entry: counter 0 and a nil transaction. */
  function Start(s: State): State
  {
    s.(i := 0, tx := NoTx, pending := [])
  }

  /** The whole of `scanlines`: the loop, then the unconditional final commit. */
  function Scan(s: State, lines: seq<string>, f: Faults, partition: bool): Outcome
  {
    var (t, stop) := Run(Start(s), lines, 0, f, partition);
    if t.tx == NoTx then Outcome(t, stop, true)
    else Outcome(CommitSpec(t), stop, false)
  }

  /**
   * `scanlines` with its final commit guarded by `tx != nil`: a stream that
   * ends before any transaction opened, or a failed Begin, returns normally.
   */
  function ScanGuarded(s: State, lines: seq<string>, f: Faults, partition: bool): (o: Outcome)
    ensures !o.panicked
  {
    var (t, stop) := Run(Start(s), lines, 0, f, partition);
    Outcome(CommitSpec(t), stop, false)
  }

  // ---- The writer ----

  class Writer {
    var i: nat
    var tx: TxState
    var pending: seq<Record>
    var committed: seq<Record>
    var batches: seq<nat>
    var hooks: seq<nat>
    /** The `-P` flag: run the partition hook before each batch. */
    const partition: bool

    function Snapshot(): State
      reads this
    {
      State(i, tx, pending, committed, batches, hooks)
    }

    constructor (partition: bool)
      ensures Snapshot() == State(0, NoTx, [], [], [], [])
      ensures this.partition == partition
    {
      i, tx, pending, committed, batches, hooks := 0, NoTx, [], [], [], [];
      this.partition := partition;
    }

    /** `addpartition`: the DDL itself is `Partition.PartitionQuery`; here only the call is logged. */
    method AddPartition(k: nat)
      modifies this
      ensures Snapshot() == old(Snapshot()).(hooks := old(hooks) + [k])
    {
      hooks := hooks + [k];
    }

    /** `db.Begin()`: `ok` is false when it fails and `tx` is then nil. */
    method Begin(k: nat, f: Faults) returns (ok: bool)
      modifies this
      ensures var r := BeginSpec(old(Snapshot()), k, f);
        Snapshot() == r.state && ok == r.Next?
    {
      ok := k !in f.beginFails;
      tx := if ok then Open else NoTx;
      pending := [];
    }

    /** `tx.Rollback()`: the records of the transaction are discarded. */
    method Rollback()
      modifies this
      ensures Snapshot() == old(Snapshot()).(tx := RolledBack, pending := [])
    {
      tx, pending := RolledBack, [];
    }

    /** `tx.Commit()` on a non-nil handle. */
    method Commit()
      modifies this
      ensures Snapshot() == CommitSpec(old(Snapshot()))
    {
      if tx == Open {
        committed := committed + pending;
        batches := batches + [|pending|];
        tx, pending := Committed, [];
      }
    }

    /** `store`: Prepare, then Exec; only a failing Exec rolls back. */
    method Store(rec: Record, line: string, k: nat, f: Faults) returns (err: Option<Stop>)
      modifies this
      ensures var r := StoreSpec(old(Snapshot()), rec, line, k, f);
        Snapshot() == r.state && err == (if r.Halt? then Some(r.stop) else None)
    {
      if k in f.prepareFails {
        return Some(StatementFailed(line));
      }
      if k in f.execFails {
        Rollback();
        return Some(SaveFailed(line));
      }
      pending := pending + [rec];
      err := None;
    }

    /** `process`: parse, then store; the error says why the loop must stop. */
    method Process(line: string, k: nat, f: Faults) returns (err: Option<Stop>)
      modifies this
      ensures var r := ProcessSpec(old(Snapshot()), line, k, f);
        Snapshot() == r.state && err == (if r.Halt? then Some(r.stop) else None)
    {
      match Parse(line)
      case Err(_) =>
        err := Some(SeparatorMissing(line));
      case Ok(rec) =>
        err := Store(rec, line, k, f);
    }

    /**
     * The body of the loop of `scanlines` for the line at index `k`: the
     * hook and `Begin` at counter 0, `process`, then the counter and the
     * commit of a full batch.  `err` says why the loop must stop.
     */
    method Iteration(line: string, k: nat, f: Faults) returns (err: Option<Stop>)
      modifies this
      ensures var r := LineStep(old(Snapshot()), line, k, f, partition);
        Snapshot() == r.state && err == (if r.Halt? then Some(r.stop) else None)
    {
      if i == 0 {
        if partition {
          AddPartition(k);
        }
        var ok := Begin(k, f);
        if !ok {
          return Some(BeginFailed(k));
        }
      }
      err := Process(line, k, f);
      if err.Some? {
        return;
      }
      if i == MaxTransactionsPerCommit {
        i := 0;
        Commit();
      } else {
        i := i + 1;
      }
    }

    /**
     * The loop of `scanlines` over one stream, from its entry state.  The
     * lines are read with `ReadString('\n')`; the fragment that comes back
     * with end of file is never processed.
     */
    method ScanLoop(stream: string, f: Faults) returns (stop: Stop)
      modifies this
      ensures (Snapshot(), stop) == Run(Start(old(Snapshot())), SplitLines(stream).0, 0, f, partition)
    {
      i, tx, pending := 0, NoTx, [];
      assert Snapshot() == Start(old(Snapshot()));
      ghost var lines := SplitLines(stream).0;
      ghost var goal := Run(Snapshot(), lines, 0, f, partition);
      var rest := stream;
      var k := 0;
      while true
        invariant k <= |lines| && SplitLines(rest).0 == lines[k..]
        invariant Run(Snapshot(), lines, k, f, partition) == goal
        decreases |rest|
      {
        var (line, eof, next) := ReadString(rest);
        ReadNext(rest, lines, k);
        if eof {
          stop := EndOfStream;
          break;
        }
        var err := Iteration(line, k, f);
        if err.Some? {
          stop := err.value;
          break;
        }
        k := k + 1;
        rest := next;
      }
      assert (Snapshot(), stop) == goal;
    }

    /** `scanlines`: the loop, then `tx.Commit()` whatever `tx` is; on a nil handle that panics. */
    method ScanLines(stream: string, f: Faults) returns (stop: Stop, panicked: bool)
      modifies this
      ensures Outcome(Snapshot(), stop, panicked) == Scan(old(Snapshot()), SplitLines(stream).0, f, partition)
    {
      stop := ScanLoop(stream, f);
      if tx == NoTx {
        panicked := true;
      } else {
        panicked := false;
        Commit();
      }
    }

    /** `scanlines` with the final commit made only on a non-nil transaction. */
    method ScanLinesGuarded(stream: string, f: Faults) returns (stop: Stop)
      modifies this
      ensures Outcome(Snapshot(), stop, false) == ScanGuarded(old(Snapshot()), SplitLines(stream).0, f, partition)
    {
      stop := ScanLoop(stream, f);
      if tx != NoTx {
        Commit();
      }
    }
  }
}
