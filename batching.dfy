/**
 * What `scanlines` guarantees, stated on its specification `Ingest.Scan`:
 * the batch bound, the size and number of commits, where processing stops
 * and which records survive each kind of failure.
 */
module Batching {
  import opened Wrappers
  import opened Records
  import opened Ingest

  /**
   * The first `|recs|` lines parse, to `recs` in order, and none of the
   * database calls made for them fails; `Begin` is called only for the lines
   * that open a batch, so only those need it to succeed.
   */
  ghost predicate Clean(lines: seq<string>, recs: seq<Record>, f: Faults)
  {
    |recs| <= |lines| &&
    forall k {:trigger Parse(lines[k])} :: 0 <= k < |recs| ==>
      && Parse(lines[k]) == Ok(recs[k])
      && (k % BatchSize == 0 ==> k !in f.beginFails)
      && k !in f.prepareFails && k !in f.execFails
  }

  /** Line `k` parses to `rec` and none of the database calls made for it fails. */
  predicate CleanAt(lines: seq<string>, k: nat, rec: Record, f: Faults)
  {
    && k < |lines| && Parse(lines[k]) == Ok(rec)
    && (k % BatchSize == 0 ==> k !in f.beginFails)
    && k !in f.prepareFails && k !in f.execFails
  }

  /** `n` full batches. */
  function FullBatches(n: nat): seq<nat>
  {
    seq(n, _ => BatchSize)
  }

  /** The indices of the lines that start a batch among the first `j` lines. */
  function BatchStarts(j: nat): seq<nat>
  {
    seq((j + BatchSize - 1) / BatchSize, m => m * BatchSize)
  }

  /** The number of lines, out of the first `j`, that belong to complete batches. */
  function CompleteBatches(j: nat): (r: nat)
    ensures r <= j && r % BatchSize == 0 && j - r < BatchSize
  {
    j - j % BatchSize
  }

  /**
   * The state of the loop after the first `j` clean lines, which gave
   * `recs[..j]`, from the entry state `s`: every complete batch committed,
   * the rest pending in an open transaction.
   */
  function AfterClean(s: State, recs: seq<Record>, j: nat, partition: bool): State
    requires j <= |recs|
  {
    var done := j - j % BatchSize;
    State(
      j % BatchSize,
      if j == 0 then NoTx else if j % BatchSize == 0 then Committed else Open,
      recs[done..j],
      s.committed + recs[..done],
      s.batches + FullBatches(j / BatchSize),
      s.hooks + (if partition then BatchStarts(j) else []))
  }

  lemma AfterNone(s: State, recs: seq<Record>, partition: bool)
    ensures AfterClean(Start(s), recs, 0, partition) == Start(s)
  {
  }

  // ---- One clean line, on any state ----

  /** At counter 0 a clean line runs the hook, opens a transaction and inserts into it. */
  lemma StepOpening(t: State, line: string, k: nat, rec: Record, f: Faults, partition: bool)
    requires Parse(line) == Ok(rec) && k !in f.beginFails && k !in f.prepareFails && k !in f.execFails
    requires t.i == 0
    ensures LineStep(t, line, k, f, partition)
         == Next(Hook(t, k, partition).(tx := Open, pending := [rec], i := 1))
  {
  }

  /** Between 0 and MaxTransactionsPerCommit a clean line only inserts and counts. */
  lemma StepMiddle(t: State, line: string, k: nat, rec: Record, f: Faults, partition: bool)
    requires Parse(line) == Ok(rec) && k !in f.prepareFails && k !in f.execFails
    requires 0 < t.i < MaxTransactionsPerCommit
    ensures LineStep(t, line, k, f, partition) == Next(t.(pending := t.pending + [rec], i := t.i + 1))
  {
  }

  /** At MaxTransactionsPerCommit a clean line is inserted, then the whole transaction is committed. */
  lemma StepClosing(t: State, line: string, k: nat, rec: Record, f: Faults, partition: bool)
    requires Parse(line) == Ok(rec) && k !in f.prepareFails && k !in f.execFails
    requires t.i == MaxTransactionsPerCommit && t.tx == Open
    ensures LineStep(t, line, k, f, partition)
         == Next(t.(i := 0, tx := Committed, committed := t.committed + (t.pending + [rec]),
                    batches := t.batches + [|t.pending| + 1], pending := []))
  {
  }

  // ---- One clean line, on the states reached by clean lines ----

  lemma OpeningState(s: State, recs: seq<Record>, j: nat, partition: bool)
    requires j < |recs| && j % BatchSize == 0
    ensures var t := AfterClean(s, recs, j, partition);
      Hook(t, j, partition).(tx := Open, pending := [recs[j]], i := 1) == AfterClean(s, recs, j + 1, partition)
  {
    assert (j + 1) % BatchSize == 1 && (j + 1) / BatchSize == j / BatchSize;
    assert (j + 1 + BatchSize - 1) / BatchSize == (j + BatchSize - 1) / BatchSize + 1;
    assert BatchStarts(j + 1) == BatchStarts(j) + [j];
    assert recs[j..j + 1] == [recs[j]];
  }

  lemma MiddleState(s: State, recs: seq<Record>, j: nat, partition: bool)
    requires j < |recs| && j % BatchSize != 0 && j % BatchSize != MaxTransactionsPerCommit
    ensures var t := AfterClean(s, recs, j, partition);
      t.(pending := t.pending + [recs[j]], i := t.i + 1) == AfterClean(s, recs, j + 1, partition)
  {
    var done := j - j % BatchSize;
    assert (j + 1) % BatchSize == j % BatchSize + 1 && (j + 1) / BatchSize == j / BatchSize;
    assert (j + 1) - (j + 1) % BatchSize == done;
    assert BatchStarts(j + 1) == BatchStarts(j);
    assert recs[done..j] + [recs[j]] == recs[done..j + 1];
  }

  lemma ClosingState(s: State, recs: seq<Record>, j: nat, partition: bool)
    requires j < |recs| && j % BatchSize == MaxTransactionsPerCommit
    ensures var t := AfterClean(s, recs, j, partition);
      t.(i := 0, tx := Committed, committed := t.committed + (t.pending + [recs[j]]),
         batches := t.batches + [|t.pending| + 1], pending := []) == AfterClean(s, recs, j + 1, partition)
  {
    var done := j - j % BatchSize;
    assert BatchStarts(j + 1) == BatchStarts(j);
    assert FullBatches((j + 1) / BatchSize) == FullBatches(j / BatchSize) + [BatchSize];
    assert |recs[done..j]| + 1 == BatchSize;
    assert recs[..done] + (recs[done..j] + [recs[j]]) == recs[..j + 1];
  }

  /** One clean line moves the loop from one `AfterClean` state to the next. */
  lemma CleanStep(s: State, lines: seq<string>, recs: seq<Record>, j: nat, f: Faults, partition: bool)
    requires j < |recs| && CleanAt(lines, j, recs[j], f)
    ensures LineStep(AfterClean(s, recs, j, partition), lines[j], j, f, partition)
         == Next(AfterClean(s, recs, j + 1, partition))
  {
    var t := AfterClean(s, recs, j, partition);
    if j % BatchSize == 0 {
      StepOpening(t, lines[j], j, recs[j], f, partition);
      OpeningState(s, recs, j, partition);
    } else if j % BatchSize == MaxTransactionsPerCommit {
      StepClosing(t, lines[j], j, recs[j], f, partition);
      ClosingState(s, recs, j, partition);
    } else {
      StepMiddle(t, lines[j], j, recs[j], f, partition);
      MiddleState(s, recs, j, partition);
    }
  }

  /** A step that carries on leaves the rest of the loop to the next line. */
  lemma RunNext(t: State, lines: seq<string>, k: nat, f: Faults, partition: bool, u: State)
    requires k < |lines| && LineStep(t, lines[k], k, f, partition) == Next(u)
    ensures Run(t, lines, k, f, partition) == Run(u, lines, k + 1, f, partition)
  {
  }

  /** After one more clean line, the rest of the loop starts from the next `AfterClean` state. */
  lemma RunCleanStep(s: State, lines: seq<string>, recs: seq<Record>, j: nat, f: Faults, partition: bool)
    requires j < |recs| && CleanAt(lines, j, recs[j], f)
    ensures Run(AfterClean(s, recs, j, partition), lines, j, f, partition)
         == Run(AfterClean(s, recs, j + 1, partition), lines, j + 1, f, partition)
  {
    CleanStep(s, lines, recs, j, f, partition);
    RunNext(AfterClean(s, recs, j, partition), lines, j, f, partition, AfterClean(s, recs, j + 1, partition));
  }

  /** Clean lines can be skipped over: the loop reaches `AfterClean(j)` at line `j`. */
  lemma {:induction false} RunClean(s: State, lines: seq<string>, recs: seq<Record>, j: nat, f: Faults, partition: bool)
    requires Clean(lines, recs, f) && j <= |recs|
    ensures Run(Start(s), lines, 0, f, partition)
         == Run(AfterClean(Start(s), recs, j, partition), lines, j, f, partition)
  {
    if j == 0 {
      AfterNone(s, recs, partition);
    } else {
      RunClean(s, lines, recs, j - 1, f, partition);
      assert CleanAt(lines, j - 1, recs[j - 1], f);
      RunCleanStep(Start(s), lines, recs, j - 1, f, partition);
    }
  }

  // ---- What one call of `scanlines` does ----

  /** The sizes of the commits for `n` lines that all go through: full batches, then the remainder. */
  function CommitSizes(n: nat): seq<nat>
  {
    FullBatches(n / BatchSize) + (if n % BatchSize == 0 then [] else [n % BatchSize])
  }

  /** `Scan` is the final commit applied to wherever the loop stopped. */
  lemma ScanAfter(s: State, lines: seq<string>, f: Faults, partition: bool, t: State, stop: Stop)
    requires Run(Start(s), lines, 0, f, partition) == (t, stop)
    ensures Scan(s, lines, f, partition)
         == if t.tx == NoTx then Outcome(t, stop, true) else Outcome(CommitSpec(t), stop, false)
  {
  }

  /** From the state reached after all lines, the loop sees end of file at once. */
  lemma RunAtEnd(t: State, lines: seq<string>, f: Faults, partition: bool)
    ensures Run(t, lines, |lines|, f, partition) == (t, EndOfStream)
  {
  }

  /** A step that leaves the loop ends it. */
  lemma RunHalt(t: State, lines: seq<string>, k: nat, f: Faults, partition: bool, u: State, stop: Stop)
    requires k < |lines| && LineStep(t, lines[k], k, f, partition) == Halt(u, stop)
    ensures Run(t, lines, k, f, partition) == (u, stop)
  {
  }

  /** The final commit after all `n` records went through commits the remainder. */
  lemma FinalCommitClean(s: State, recs: seq<Record>, partition: bool)
    ensures var t := AfterClean(s, recs, |recs|, partition);
      && (t.tx == NoTx <==> recs == [])
      && CommitSpec(t).committed == s.committed + recs
      && CommitSpec(t).pending == []
      && CommitSpec(t).batches == s.batches + CommitSizes(|recs|)
      && CommitSpec(t).hooks == s.hooks + (if partition then BatchStarts(|recs|) else [])
  {
    var n := |recs|;
    var done := n - n % BatchSize;
    assert recs[..done] + recs[done..n] == recs;
    assert recs[..n] == recs;
  }

  /** The pending records of the open batch joined to the committed ones are all of `recs[..j]`. */
  lemma PendingJoin(s: State, recs: seq<Record>, j: nat, partition: bool)
    requires j <= |recs|
    ensures var t := AfterClean(s, recs, j, partition);
      t.committed + t.pending == s.committed + recs[..j]
  {
    var done := j - j % BatchSize;
    assert recs[..done] + recs[done..j] == recs[..j];
  }

  /**
   * A stream whose lines all parse and meet no failure: every record is
   * committed, in order; the commits are full batches of BatchSize records
   * and then the remainder (see `CommitCount`); the hook runs before every
   * batch.  An empty stream reaches the final commit with a nil transaction.
   */
  lemma CleanStream(s: State, lines: seq<string>, recs: seq<Record>, f: Faults, partition: bool)
    requires Clean(lines, recs, f) && |recs| == |lines|
    ensures var o := Scan(s, lines, f, partition);
      && o.stop == EndOfStream
      && o.panicked == (lines == [])
      && o.state.committed == s.committed + recs
      && o.state.pending == []
      && o.state.batches == s.batches + CommitSizes(|lines|)
      && o.state.hooks == s.hooks + (if partition then BatchStarts(|lines|) else [])
  {
    var t := AfterClean(Start(s), recs, |recs|, partition);
    RunClean(s, lines, recs, |recs|, f, partition);
    RunAtEnd(t, lines, f, partition);
    ScanAfter(s, lines, f, partition, t, EndOfStream);
    FinalCommitClean(Start(s), recs, partition);
  }

  /** The number and sizes of the commits of `CleanStream`. */
  lemma CommitCount(n: nat)
    ensures |CommitSizes(n)| == (n + BatchSize - 1) / BatchSize
    ensures forall m :: 0 <= m < |CommitSizes(n)| - 1 ==> CommitSizes(n)[m] == BatchSize
    ensures n > 0 ==>
      CommitSizes(n)[|CommitSizes(n)| - 1] == (if n % BatchSize == 0 then BatchSize else n % BatchSize)
  {
  }

  /** The line after the clean ones parses but a database call fails, or it does not parse. */
  lemma HaltAt(s: State, lines: seq<string>, recs: seq<Record>, f: Faults, partition: bool)
    requires Clean(lines, recs, f) && |recs| < |lines|
    requires LineStep(AfterClean(Start(s), recs, |recs|, partition), lines[|recs|], |recs|, f, partition).Halt?
    ensures var h := LineStep(AfterClean(Start(s), recs, |recs|, partition), lines[|recs|], |recs|, f, partition);
      Scan(s, lines, f, partition)
      == if h.state.tx == NoTx then Outcome(h.state, h.stop, true) else Outcome(CommitSpec(h.state), h.stop, false)
  {
    var t := AfterClean(Start(s), recs, |recs|, partition);
    var h := LineStep(t, lines[|recs|], |recs|, f, partition);
    RunClean(s, lines, recs, |recs|, f, partition);
    RunHalt(t, lines, |recs|, f, partition, h.state, h.stop);
    ScanAfter(s, lines, f, partition, h.state, h.stop);
  }

  /**
   * A line without a separator stops the loop; the records pending in the
   * open batch are committed by the final commit, so exactly the records of
   * the earlier lines are committed and no later line is ever stored.
   */
  lemma StopsAtMissingSeparator(s: State, lines: seq<string>, recs: seq<Record>, f: Faults, partition: bool)
    requires Clean(lines, recs, f) && |recs| < |lines|
    requires Parse(lines[|recs|]).Err? && (|recs| % BatchSize == 0 ==> |recs| !in f.beginFails)
    ensures var o := Scan(s, lines, f, partition);
      && o.stop == SeparatorMissing(lines[|recs|])
      && !o.panicked
      && o.state.committed == s.committed + recs
      && o.state.pending == []
  {
    var j := |recs|;
    var t := AfterClean(Start(s), recs, j, partition);
    var u := if t.i == 0 then Hook(t, j, partition).(tx := Open, pending := []) else t;
    assert LineStep(t, lines[j], j, f, partition) == Halt(u, SeparatorMissing(lines[j]));
    HaltAt(s, lines, recs, f, partition);
    PendingJoin(Start(s), recs, j, partition);
    assert recs[..j] == recs;
  }

  /**
   * A failing Prepare in `store` does not roll back: the loop stops and the
   * final commit still commits the records of the open batch.
   */
  lemma StatementFailureCommitsBatch(s: State, lines: seq<string>, recs: seq<Record>, f: Faults, partition: bool)
    requires Clean(lines, recs, f) && |recs| < |lines|
    requires Parse(lines[|recs|]).Ok? && (|recs| % BatchSize == 0 ==> |recs| !in f.beginFails) && |recs| in f.prepareFails
    ensures var o := Scan(s, lines, f, partition);
      && o.stop == StatementFailed(lines[|recs|])
      && !o.panicked
      && o.state.committed == s.committed + recs
      && o.state.pending == []
  {
    var j := |recs|;
    var t := AfterClean(Start(s), recs, j, partition);
    var u := if t.i == 0 then Hook(t, j, partition).(tx := Open, pending := []) else t;
    assert LineStep(t, lines[j], j, f, partition) == Halt(u, StatementFailed(lines[j]));
    HaltAt(s, lines, recs, f, partition);
    PendingJoin(Start(s), recs, j, partition);
    assert recs[..j] == recs;
  }

  /** A failing insert, on any state: the transaction is rolled back and the loop left. */
  lemma StepSaveFails(t: State, line: string, k: nat, f: Faults, partition: bool)
    requires Parse(line).Ok? && (t.i == 0 ==> k !in f.beginFails) && k !in f.prepareFails && k in f.execFails
    ensures var h := LineStep(t, line, k, f, partition);
      && h == Halt(h.state, SaveFailed(line))
      && h.state.tx == RolledBack && h.state.committed == t.committed
  {
  }

  /**
   * A failing insert rolls the open batch back and stops the loop; the final
   * commit then has nothing to commit, so the records of that batch are
   * lost and only the earlier full batches stay committed.
   */
  lemma SaveFailureLosesBatch(s: State, lines: seq<string>, recs: seq<Record>, f: Faults, partition: bool)
    requires Clean(lines, recs, f) && |recs| < |lines|
    requires Parse(lines[|recs|]).Ok? && (|recs| % BatchSize == 0 ==> |recs| !in f.beginFails) && |recs| !in f.prepareFails
    requires |recs| in f.execFails
    ensures var o := Scan(s, lines, f, partition);
      && o.stop == SaveFailed(lines[|recs|])
      && !o.panicked
      && o.state.tx == RolledBack
      && o.state.committed == s.committed + recs[..CompleteBatches(|recs|)]
  {
    var j := |recs|;
    var t := AfterClean(Start(s), recs, j, partition);
    StepSaveFails(t, lines[j], j, f, partition);
    HaltAt(s, lines, recs, f, partition);
    var h := LineStep(t, lines[j], j, f, partition);
    assert Scan(s, lines, f, partition) == Outcome(h.state, h.stop, false);
    assert CompleteBatches(j) == j - j % BatchSize;
  }

  /**
   * A failing Begin leaves `tx` nil: the loop stops and the final commit
   * dereferences it.  The batches committed before stay committed.
   */
  lemma BeginFailurePanics(s: State, lines: seq<string>, recs: seq<Record>, f: Faults, partition: bool)
    requires Clean(lines, recs, f) && |recs| < |lines|
    requires |recs| % BatchSize == 0 && |recs| in f.beginFails
    ensures var o := Scan(s, lines, f, partition);
      && o.stop == BeginFailed(|recs|)
      && o.panicked
      && o.state.committed == s.committed + recs
  {
    var j := |recs|;
    var t := AfterClean(Start(s), recs, j, partition);
    assert LineStep(t, lines[j], j, f, partition) == Halt(Hook(t, j, partition).(tx := NoTx, pending := []), BeginFailed(j));
    HaltAt(s, lines, recs, f, partition);
    assert recs[..j] == recs;
  }

  /** An empty stream (or one that is only a fragment) panics at the final commit and stores nothing. */
  lemma EmptyStreamPanics(s: State, f: Faults, partition: bool)
    ensures Scan(s, [], f, partition) == Outcome(Start(s), EndOfStream, true)
  {
  }

  // ---- The batch bound, for any lines and any failures ----

  /** The loop's state between two lines: the counter is the number of pending records. */
  ghost predicate Between(t: State)
  {
    t.i <= MaxTransactionsPerCommit &&
    (t.tx == Open ==> |t.pending| == t.i) &&
    (t.tx != Open ==> t.pending == [] && t.i == 0)
  }

  /** The loop's state once it is left; a rolled-back transaction leaves the counter where it was. */
  ghost predicate Left(t: State)
  {
    t.i <= MaxTransactionsPerCommit &&
    (t.tx == Open ==> |t.pending| == t.i) &&
    (t.tx != Open ==> t.pending == [])
  }

  /** From `t` to `u` only whole batches of BatchSize records were committed. */
  ghost predicate Grows(t: State, u: State)
  {
    |t.batches| <= |u.batches| && u.batches[..|t.batches|] == t.batches &&
    (forall m :: |t.batches| <= m < |u.batches| ==> u.batches[m] == BatchSize) &&
    |t.committed| <= |u.committed| && u.committed[..|t.committed|] == t.committed
  }

  lemma GrowsTrans(a: State, b: State, c: State)
    requires Grows(a, b) && Grows(b, c)
    ensures Grows(a, c)
  {
    assert c.batches[..|a.batches|] == c.batches[..|b.batches|][..|a.batches|];
    assert c.committed[..|a.committed|] == c.committed[..|b.committed|][..|a.committed|];
  }

  lemma GrowsNot(t: State, u: State)
    requires u.batches == t.batches && u.committed == t.committed
    ensures Grows(t, u)
  {
    assert u.batches[..|t.batches|] == t.batches;
    assert u.committed[..|t.committed|] == t.committed;
  }

  lemma GrowsByBatch(t: State, u: State, added: seq<Record>)
    requires u.batches == t.batches + [BatchSize] && u.committed == t.committed + added
    ensures Grows(t, u)
  {
    assert u.batches[..|t.batches|] == t.batches;
    assert u.committed[..|t.committed|] == t.committed;
  }

  /** `process` either inserts the parsed record or leaves the loop, rolled back or not. */
  lemma ProcessShape(s: State, line: string, k: nat, f: Faults)
    ensures var q := ProcessSpec(s, line, k, f);
      && (q.Next? ==> Parse(line).Ok? && q.state == s.(pending := s.pending + [Parse(line).value]))
      && (q.Halt? ==> q.state == s || q.state == s.(tx := RolledBack, pending := []))
  {
    var r := Parse(line);
    if r.Ok? {
      assert ProcessSpec(s, line, k, f) == StoreSpec(s, r.value, line, k, f);
    } else {
      assert ProcessSpec(s, line, k, f) == Halt(s, SeparatorMissing(line));
    }
  }

  /** One line of the loop, on any state between two lines and any failures. */
  lemma StepKeeps(t: State, line: string, k: nat, f: Faults, partition: bool)
    requires Between(t)
    ensures match LineStep(t, line, k, f, partition)
      case Next(u) => Between(u) && Grows(t, u)
      case Halt(u, _) => Left(u) && Grows(t, u)
  {
    var b := if t.i == 0 then BeginSpec(Hook(t, k, partition), k, f) else Next(t);
    assert b.state.batches == t.batches && b.state.committed == t.committed;
    assert b.state.tx == Open ==> |b.state.pending| == b.state.i;
    if b.Halt? {
      assert LineStep(t, line, k, f, partition) == b;
      GrowsNot(t, b.state);
    } else {
      var q := ProcessSpec(b.state, line, k, f);
      ProcessShape(b.state, line, k, f);
      if q.Halt? {
        assert LineStep(t, line, k, f, partition) == q;
        GrowsNot(t, q.state);
      } else if q.state.i == MaxTransactionsPerCommit {
        var c := CommitSpec(q.state.(i := 0));
        assert LineStep(t, line, k, f, partition) == Next(c);
        assert |q.state.pending| == BatchSize;
        GrowsByBatch(t, c, q.state.pending);
      } else {
        var u := q.state.(i := q.state.i + 1);
        assert LineStep(t, line, k, f, partition) == Next(u);
        GrowsNot(t, u);
      }
    }
  }

  /** Where the loop ended, from `t`: the shape of `Left`, only whole batches committed, `Between` at end of file. */
  ghost predicate Kept(t: State, r: (State, Stop))
  {
    Left(r.0) && Grows(t, r.0) && (r.1 == EndOfStream ==> Between(r.0))
  }

  /** The loop keeps the shape of its state and commits only whole batches. */
  lemma {:induction false} RunKeeps(t: State, lines: seq<string>, k: nat, f: Faults, partition: bool)
    requires Between(t)
    ensures Kept(t, Run(t, lines, k, f, partition))
    decreases |lines| - k
  {
    if k < |lines| {
      StepKeeps(t, lines[k], k, f, partition);
      var st := LineStep(t, lines[k], k, f, partition);
      if st.Next? {
        RunNext(t, lines, k, f, partition, st.state);
        var r := Run(st.state, lines, k + 1, f, partition);
        RunKeeps(st.state, lines, k + 1, f, partition);
        GrowsTrans(t, st.state, r.0);
        assert Kept(t, r);
      } else {
        RunHalt(t, lines, k, f, partition, st.state, st.stop);
        assert Kept(t, (st.state, st.stop));
      }
    } else {
      assert t.batches[..|t.batches|] == t.batches;
      assert t.committed[..|t.committed|] == t.committed;
      assert Kept(t, (t, EndOfStream));
    }
  }

  /**
   * Whatever the lines and whatever fails, `scanlines` commits at most
   * BatchSize records at a time, every commit but the last exactly
   * BatchSize, and never takes back a record already committed.
   */
  lemma BatchBound(s: State, lines: seq<string>, f: Faults, partition: bool)
    ensures var o := Scan(s, lines, f, partition);
      && |s.batches| <= |o.state.batches| && o.state.batches[..|s.batches|] == s.batches
      && (forall m :: |s.batches| <= m < |o.state.batches| - 1 ==> o.state.batches[m] == BatchSize)
      && (forall m :: |s.batches| <= m < |o.state.batches| ==> o.state.batches[m] <= BatchSize)
      && |s.committed| <= |o.state.committed| && o.state.committed[..|s.committed|] == s.committed
      && o.state.i <= MaxTransactionsPerCommit
  {
    var (t, stop) := Run(Start(s), lines, 0, f, partition);
    RunKeeps(Start(s), lines, 0, f, partition);
    ScanAfter(s, lines, f, partition, t, stop);
    if t.tx == Open {
      var c := CommitSpec(t);
      assert c.batches == t.batches + [|t.pending|];
      assert c.batches[..|s.batches|] == t.batches[..|s.batches|];
      assert c.committed[..|s.committed|] == t.committed[..|s.committed|];
    }
  }

  // ---- The final commit guarded by `tx != nil` ----

  /**
   * With the guard, `scanlines` leaves the same state as the code as written
   * wherever that does not panic, and where it panics it returns after the
   * same loop instead; either way no record is left pending.
   */
  lemma GuardedScan(s: State, lines: seq<string>, f: Faults, partition: bool)
    ensures var o := Scan(s, lines, f, partition);
      var g := ScanGuarded(s, lines, f, partition);
      && (o.panicked ==> g == o.(panicked := false))
      && (!o.panicked ==> g == o)
      && g.state.pending == []
  {
    var (t, stop) := Run(Start(s), lines, 0, f, partition);
    RunKeeps(Start(s), lines, 0, f, partition);
    ScanAfter(s, lines, f, partition, t, stop);
  }

  /** With the guard an empty stream is a no-op. */
  lemma GuardedEmptyStream(s: State, f: Faults, partition: bool)
    ensures ScanGuarded(s, [], f, partition) == Outcome(Start(s), EndOfStream, false)
  {
  }
}
