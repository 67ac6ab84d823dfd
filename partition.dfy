/**
 * `addpartition`: the DDL that partitions table `leak` by the range of `id`
 * that the next batch will take, from the last inserted id.  The effect of
 * the statement on the database is not modelled.
 */
module Partition {
  import opened Wrappers
  import opened Text
  import opened Ingest

  const Head: string := "ALTER TABLE leak PARTITION BY RANGE(id) (PARTITION p"
  const Middle: string := " VALUES LESS THAN ("
  const Tail: string := "))"

  /** The query built from `SELECT LAST_INSERT_ID()`: partition `p<n>` below `n + MaxTransactionsPerCommit`. */
  function PartitionQuery(lastInsert: nat): (q: string)
    ensures HasPrefix(q, Head)
    ensures |q| > |Head| + |Middle| + |Tail|
  {
    Head + Digits(lastInsert) + Middle + Digits(lastInsert + MaxTransactionsPerCommit) + Tail
  }

  /**
   * The whole of `addpartition`: when the query for the last insert id
   * fails (`None`) no DDL is issued.
   */
  function AddPartition(lastInsert: Option<nat>): (q: Option<string>)
    ensures q.Some? <==> lastInsert.Some?
    ensures q.Some? ==> q.value == PartitionQuery(lastInsert.value)
  {
    match lastInsert
    case None => None
    case Some(n) => Some(PartitionQuery(n))
  }

  /** Reads back the partition name and the upper bound from a query of the shape above. */
  function PartitionBounds(q: string): Option<(nat, nat)>
  {
    if !HasPrefix(q, Head) then None
    else
      var r0 := q[|Head|..];
      var d1 := LeadingDigits(r0);
      var r1 := r0[|d1|..];
      if d1 == [] || !HasPrefix(r1, Middle) then None
      else
        var r2 := r1[|Middle|..];
        var d2 := LeadingDigits(r2);
        if d2 == [] || r2[|d2|..] != Tail then None
        else Some((DigitsValue(d1), DigitsValue(d2)))
  }

  /**
   * The query names partition `p<lastInsert>` and bounds it by
   * `lastInsert + MaxTransactionsPerCommit`, and nothing else can be read
   * out of it.
   */
  lemma PartitionRoundTrip(n: nat)
    ensures PartitionBounds(PartitionQuery(n)) == Some((n, n + MaxTransactionsPerCommit))
  {
    var a := Digits(n);
    var b := Digits(n + MaxTransactionsPerCommit);
    var q := PartitionQuery(n);
    assert q == Head + (a + (Middle + (b + Tail)));
    var r0 := q[|Head|..];
    assert r0 == a + (Middle + (b + Tail));
    LeadingDigitsOf(a, Middle + (b + Tail));
    var r1 := r0[|a|..];
    assert r1 == Middle + (b + Tail);
    assert HasPrefix(r1, Middle);
    var r2 := r1[|Middle|..];
    assert r2 == b + Tail;
    LeadingDigitsOf(b, Tail);
    assert r2[|b|..] == Tail;
    DigitsRoundTrip(n);
    DigitsRoundTrip(n + MaxTransactionsPerCommit);
  }

  /** Different last insert ids give different queries. */
  lemma PartitionQueryInjective(m: nat, n: nat)
    requires PartitionQuery(m) == PartitionQuery(n)
    ensures m == n
  {
    PartitionRoundTrip(m);
    PartitionRoundTrip(n);
  }
}
